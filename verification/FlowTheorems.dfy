/** What follows for whole runs of a flow: safety in every interleaving, exactly-once
    delivery, termination, progress, and the return of all memory. */
module FlowTheorems {
  import opened Arith
  import opened Wrappers
  import opened Arena
  import opened QueuePair
  import opened Commands
  import opened FlowModel
  import opened FlowInvariant
  import opened FlowKeeps
  import Prp

  // ---- safety of runs ----

  /** Fewer than 65536 ids are issued during the life of any command. */
  ghost predicate IdWindow(s: State) {
    forall n: nat :: Alive(Issued(s.h, s.sub), s.h.posted, ReleasedN(s.h, s.irq), n) ==> Issued(s.h, s.sub) - n < IDS
  }

  /** Under that condition the 16-bit counter never meets an id in use, however often it wraps. */
  lemma {:induction false} WindowFresh(c: Config, s: State)
    requires Groups(c, s) && IdWindow(s)
    ensures FreshId(s)
  {
    hide Holding, Describing, Related, Pacing, Delivery, Serving, Interrupting, Alive;
    var issued, posted, k := Issued(s.h, s.sub), s.h.posted, ReleasedN(s.h, s.irq);
    forall n: nat | Alive(issued, posted, k, n) ensures IdOf(c, n) != IdOf(c, issued) {
      AliveBelow(issued, posted, k, n);
      ModDistinct(c.firstId + n, c.firstId + issued, IDS);
    }
  }

  lemma AliveBelow(issued: nat, posted: seq<Sqe>, k: nat, n: nat)
    requires Alive(issued, posted, k, n)
    ensures n < issued
  {
  }

  /** A run: the actions are enabled one after the other, and each command registered gets an
      id not in use. */
  ghost predicate FreshRun(c: Config, s: State, acts: seq<Action>)
    decreases |acts|
  {
    acts == [] || (Apply(c, s, acts[0]).Some? && (acts[0] == SetupCmd ==> FreshId(s)) && FreshRun(c, Apply(c, s, acts[0]).value, acts[1..]))
  }

  ghost predicate WindowRun(c: Config, s: State, acts: seq<Action>)
    decreases |acts|
  {
    acts == [] || (Apply(c, s, acts[0]).Some? && IdWindow(s) && WindowRun(c, Apply(c, s, acts[0]).value, acts[1..]))
  }

  /** Every state of every run, in every interleaving, satisfies the invariant: no free
      aborts and the queues, ids, buffers and data pointers are in order. */
  lemma {:induction false} RunKeeps(c: Config, s: State, acts: seq<Action>)
    requires GoodConfig(c) && QueueRoom(c) && Inv(c, s) && FreshRun(c, s, acts)
    ensures Exec(c, s, acts).Some? && Inv(c, Exec(c, s, acts).value)
    decreases |acts|
  {
    hide GoodConfig, Groups, FreshId, ThreadStep, SubmitStep, DeviceStep, IrqStep;
    if acts != [] {
      StepKeeps(c, s, acts[0]);
      RunKeeps(c, Apply(c, s, acts[0]).value, acts[1..]);
    }
  }

  /** Runs that stay within the id window, however long, give out fresh ids only. */
  lemma {:induction false} WindowIsFresh(c: Config, s: State, acts: seq<Action>)
    requires GoodConfig(c) && QueueRoom(c) && Inv(c, s) && WindowRun(c, s, acts)
    ensures FreshRun(c, s, acts)
    decreases |acts|
  {
    hide GoodConfig, Groups, IdWindow, FreshId, ThreadStep, SubmitStep, DeviceStep, IrqStep;
    if acts != [] {
      WindowFresh(c, s);
      StepKeeps(c, s, acts[0]);
      WindowIsFresh(c, Apply(c, s, acts[0]).value, acts[1..]);
    }
  }

  lemma {:induction false} SmallFresh(c: Config, s: State)
    requires Groups(c, s) && c.avg <= IDS && c.count <= IDS
    ensures FreshId(s)
  {
    hide Groups, IdWindow, FreshId, Alive;
    IssuedBelow(c, s);
    if s.sub.Setup? {
      forall n: nat | Alive(Issued(s.h, s.sub), s.h.posted, ReleasedN(s.h, s.irq), n) ensures Issued(s.h, s.sub) - n < IDS { }
      FreshInWindow(c, s);
    } else {
      NothingToRegister(s);
    }
  }

  lemma IssuedBelow(c: Config, s: State)
    requires Groups(c, s) && c.avg <= IDS && c.count <= IDS
    ensures s.sub.Setup? ==> Issued(s.h, s.sub) < IDS
  {
    hide Holding, Describing, Related, Delivery, Serving, Interrupting, Table;
    StagesOrdered(c, s);
  }

  lemma FreshInWindow(c: Config, s: State)
    requires Groups(c, s)
    requires forall n: nat :: Alive(Issued(s.h, s.sub), s.h.posted, ReleasedN(s.h, s.irq), n) ==> Issued(s.h, s.sub) - n < IDS
    ensures FreshId(s)
  {
    hide Groups, FreshId;
    assert IdWindow(s);
    WindowFresh(c, s);
  }

  lemma NothingToRegister(s: State)
    requires !s.sub.Setup?
    ensures FreshId(s)
  {
  }

  /** A state about to register a command under an id in use is not quiet: the command that has
      the id is at the device, on its way back, or being erased. */
  lemma {:induction false} QuietIsFresh(c: Config, s: State)
    requires Groups(c, s) && s.status == Running && Quiet(c, s, {})
    ensures FreshId(s)
  {
    hide Groups, FreshId, Quiet, Alive;
    if s.sub.Setup? {
      QuietIrq(c, s, {});
      QuietDevice(c, s, {});
      NoneAlive(c, s);
      FreshInWindow(c, s);
    } else {
      NothingToRegister(s);
    }
  }

  lemma NoneAlive(c: Config, s: State)
    requires Groups(c, s) && s.sub.Setup? && s.irq.Idle? && s.dev.held == {}
    requires s.h.consumed == |s.h.posted| && s.h.fetched == s.h.published
    ensures forall n: nat :: !Alive(Issued(s.h, s.sub), s.h.posted, ReleasedN(s.h, s.irq), n)
  {
    hide Holding, Describing, Related, Pacing, Interrupting, Table;
    LogDistinct(c, s);
    Pigeonhole(|s.log|, s.log);
    forall n: nat | n < Issued(s.h, s.sub) ensures Gone(s.h.posted, s.h.consumed, n) {
      assert n in s.log;
      var j :| 0 <= j < |s.log| && s.log[j] == n;
      assert s.h.posted[j].tag == n;
    }
  }

  /** In flows of at most 65536 requests every sequence of enabled actions is such a run. */
  lemma {:induction false} SmallIsFresh(c: Config, s: State, acts: seq<Action>)
    requires GoodConfig(c) && QueueRoom(c) && c.avg <= IDS && c.count <= IDS && Inv(c, s) && Exec(c, s, acts).Some?
    ensures FreshRun(c, s, acts)
    decreases |acts|
  {
    hide GoodConfig, Groups, IdWindow, FreshId, ThreadStep, SubmitStep, DeviceStep, IrqStep;
    if acts != [] {
      SmallFresh(c, s);
      StepKeeps(c, s, acts[0]);
      SmallIsFresh(c, Apply(c, s, acts[0]).value, acts[1..]);
    }
  }

  // ---- termination ----

  function IrqRank(irq: Irq): nat {
    match irq case Idle => 0 case Check(_) => 2 case _ => 1
  }

  function One(b: bool): nat { if b then 1 else 0 }

  /** How far the flow has got; every step advances it. */
  function Progress(s: State): int {
    s.eng.fill + One(s.eng.running) + 3 * s.eng.completed + |s.eng.batch| + One(!s.eng.post)
    + Dispatched(s.h, s.sub) + Issued(s.h, s.sub) + |s.h.submitted| + One(s.sub.Enqueue?) + |s.h.submitted| + s.h.published
    + s.h.fetched + 5 * |s.h.posted| + FiredN(s.h, s.irq) + ReleasedN(s.h, s.irq) + 2 * s.h.consumed
    - 4 * One(s.dev.owed) - 3 * s.dev.irqs - IrqRank(s.irq) + One(s.status != Running)
  }

  lemma SubmitIoAdvances(c: Config, s: State)
    requires s.status == Running && s.sub == NoSub
    ensures Progress(SubmitIo(c, s)) >= Progress(s)
  {
    hide TakeBuffer;
  }

  lemma EngineAdvances(s: State, e: Engine)
    requires e == s.eng.(fill := s.eng.fill + 1) || (s.eng.post && e == s.eng.(post := false))
    ensures Progress(s.(eng := e)) == Progress(s) + 1
  {
  }

  lemma MovesAdvance(c: Config, s: State, a: Action)
    requires s.status == Running && ThreadStep(c, s, a).Some? && a != Fill && a != OnCompleted
    ensures Progress(ThreadStep(c, s, a).value) >= Progress(s) + 1
  {
    hide GiveBuffer;
  }

  lemma ThreadAdvances(c: Config, s: State, a: Action)
    requires s.status == Running && ThreadStep(c, s, a).Some?
    ensures Progress(ThreadStep(c, s, a).value) >= Progress(s) + 1
  {
    hide TakeBuffer, GiveBuffer, Progress, SubmitIo;
    match a
    case Fill =>
      var e := s.eng.(fill := s.eng.fill + 1);
      EngineAdvances(s, e);
      SubmitIoAdvances(c, s.(eng := e));
    case OnCompleted =>
      var e := s.eng.(post := false);
      EngineAdvances(s, e);
      SubmitIoAdvances(c, s.(eng := e));
    case _ => MovesAdvance(c, s, a);
  }

  lemma SubmitAdvances(c: Config, s: State, a: Action)
    requires s.status == Running && Queueing(c, s.q, s.h, s.sub, s.idCounter) && SubmitStep(c, s, a).Some?
    ensures Progress(SubmitStep(c, s, a).value) >= Progress(s) + 1
  {
    hide Related, BuildList, WriteSqe;
  }

  lemma DeviceAdvances(s: State, a: Action)
    requires s.status == Running && DeviceStep(s, a).Some?
    ensures Progress(DeviceStep(s, a).value) >= Progress(s) + 1
  {
    hide Fetch, Post;
  }

  lemma IrqAdvances(s: State, a: Action)
    requires s.status == Running && IrqStep(s, a).Some?
    ensures Progress(IrqStep(s, a).value) >= Progress(s) + 1
  {
    hide GivePages;
  }

  lemma {:induction false} StepAdvances(c: Config, s: State, a: Action)
    requires Groups(c, s) && Apply(c, s, a).Some?
    ensures Progress(Apply(c, s, a).value) >= Progress(s) + 1
  {
    hide Progress, ThreadStep, SubmitStep, DeviceStep, IrqStep;
    match a
    case Fill => ThreadAdvances(c, s, a);
    case FillDone => ThreadAdvances(c, s, a);
    case Collect => ThreadAdvances(c, s, a);
    case Process => ThreadAdvances(c, s, a);
    case Drain => ThreadAdvances(c, s, a);
    case OnCompleted => ThreadAdvances(c, s, a);
    case SetupCmd => SubmitAdvances(c, s, a);
    case BuildPrp => SubmitAdvances(c, s, a);
    case EnqueueCmd => SubmitAdvances(c, s, a);
    case RingSqDb => SubmitAdvances(c, s, a);
    case DevFetch => DeviceAdvances(s, a);
    case DevPost(_) => DeviceAdvances(s, a);
    case DevIrq => DeviceAdvances(s, a);
    case _ => IrqAdvances(s, a);
  }

  function Largest(c: Config): nat { if c.avg <= c.count then c.count else c.avg }

  lemma EngineBounded(c: Config, s: State)
    requires Groups(c, s)
    ensures s.eng.fill <= c.avg && s.eng.submitted <= Largest(c)
  {
    hide Holding, Describing, Related, Serving, Table, Interrupting, Delivery, Queueing;
  }

  lemma {:induction false} ProgressBounded(c: Config, s: State)
    requires Groups(c, s)
    ensures Progress(s) <= c.avg + 18 * Largest(c) + 2 + One(s.status != Running)
  {
    hide Groups, Largest;
    EngineBounded(c, s);
    StagesOrdered(c, s);
  }

  /** Every run ends: none is longer than this, whatever the device and the scheduler do. */
  lemma {:induction false} RunsEnd(c: Config, s: State, acts: seq<Action>)
    requires GoodConfig(c) && QueueRoom(c) && Inv(c, s) && s.status == Running && FreshRun(c, s, acts)
    ensures |acts| + Progress(s) <= c.avg + 18 * Largest(c) + 3
    decreases |acts|
  {
    hide GoodConfig, Groups, IdWindow, FreshId, ThreadStep, SubmitStep, DeviceStep, IrqStep, Progress;
    ProgressBounded(c, s);
    if acts != [] {
      StepKeeps(c, s, acts[0]);
      StepAdvances(c, s, acts[0]);
      var s' := Apply(c, s, acts[0]).value;
      if s'.status == Running { RunsEnd(c, s', acts[1..]); }
    }
  }

  lemma RunsFromInitEnd(c: Config, acts: seq<Action>)
    requires GoodConfig(c) && QueueRoom(c) && FreshRun(c, Init(c), acts)
    ensures |acts| <= c.avg + 18 * Largest(c) + 2
  {
    InitInv(c);
    RunsEnd(c, Init(c), acts);
  }

  // ---- exactly once ----

  /** In every reachable state: callbacks ran in completion order, each for a command the
      device had fetched, none twice; and whatever the interrupt handler works on is in the
      command table under its id with its own callback, so no completion is unknown. */
  lemma {:induction false} AtMostOnce(c: Config, s: State)
    requires Groups(c, s)
    ensures forall i, j :: 0 <= i < j < |s.log| ==> s.log[i] != s.log[j]
    ensures forall j :: 0 <= j < |s.log| ==> j < |s.h.posted| && s.log[j] == s.h.posted[j].tag < s.h.fetched
    ensures s.irq.Handle? ==> Callback(s.cmds, s.irq.c.cid) == Some(s.irq.c.tag) && s.irq.c.tag !in s.log
  {
    hide Holding, Describing, Related, Pacing, Interrupting, Table, Serving;
    LogDistinct(c, s);
    if s.irq.Handle? {
      HandledIsListed(c, s);
      HandledUnlogged(c, s);
    }
  }

  lemma HandledUnlogged(c: Config, s: State)
    requires Groups(c, s) && s.irq.Handle?
    ensures s.irq.c.tag !in s.log
  {
    hide Holding, Describing, Related, Pacing, Table;
    var x := s.h.consumed;
    assert forall j :: 0 <= j < |s.log| ==> s.log[j] == s.h.posted[j].tag != s.h.posted[x].tag;
  }

  /** What the device reads when it fetches: the entry of the next request in order, whose
      data pointers decode (against memory as it is then) to exactly that request's buffer. */
  lemma {:induction false} FetchedDescribesBuffer(c: Config, s: State)
    requires GoodConfig(c) && Groups(c, s) && DeviceStep(s, DevFetch).Some?
    ensures var (x, _) := Fetch(s.q);
      && s.h.fetched < |s.h.submitted| && x == s.h.submitted[s.h.fetched] && x.tag == s.h.fetched && x.cid == IdOf(c, x.tag)
      && Buffered(c, s.mem, x.tag) && x.tag in s.mem.bufs
      && Prp.DecodesTo(Prp.Decode(s.mem.words, x.prp1, x.prp2, c.size(x.tag)), s.mem.bufs[x.tag], c.size(x.tag))
  {
    hide Pacing, Table, Serving, Interrupting, CqRelated, GoodConfig;
    StagesOrdered(c, s);
    CanFetchMeans(s.q, s.h);
    var n := s.h.fetched;
    assert SqSlot(s.q, s.h, n) && Numbered(c, s.h, n);
    Unanswered(c, s, n);
  }

  lemma CanFetchMeans(q: Queue, h: History)
    requires Related(q, h)
    ensures CanFetch(q) <==> h.fetched < h.published
  {
    if h.fetched < h.published { IndexDistinct(h.fetched, h.published, q.depth); }
  }

  /** A request the device has not fetched was not called back, so its buffer is live. */
  lemma Unanswered(c: Config, s: State, n: nat)
    requires Groups(c, s) && s.h.fetched <= n < s.eng.submitted
    ensures !Processed(s.log, |s.log|, n) && !Processed(s.log, s.eng.completed, n) && Buffered(c, s.mem, n)
  {
    hide Related, Table, Describing;
    LogDistinct(c, s);
  }

  /** Buffers, PRP list pages and the rings never overlap, in any reachable state. */
  lemma {:induction false} NeverOverlap(c: Config, s: State, o: Owner, o': Owner)
    requires Groups(c, s) && o in s.mem.live && o' in s.mem.live && o != o'
    ensures Disjoint(s.mem.live[o], s.mem.live[o'])
  {
    hide Related, Table, Describing, Pacing, Serving, Delivery;
  }

  /** The pacing law, between the processing of two completions. */
  lemma {:induction false} PacingLaw(c: Config, s: State)
    requires Groups(c, s) && s.eng.running && !s.eng.post && c.avg <= c.count
    ensures s.eng.submitted - s.eng.completed == Min(c.avg, c.count - s.eng.completed)
    ensures s.eng.inflight == Min(c.cap, s.eng.submitted - s.eng.completed)
    ensures |s.eng.waiting| == s.eng.submitted - s.eng.completed - s.eng.inflight
  {
    hide Related, Table, Describing, Serving, Holding;
    StagesOrdered(c, s);
  }

  // ---- progress ----

  /** Nothing can move. */
  ghost predicate Stuck(c: Config, s: State) {
    forall a :: Apply(c, s, a).None?
  }

  ghost predicate Blocked(c: Config, s: State, a: Action) { Apply(c, s, a).None? }

  /** With nothing enabled no thread is inside an operation. */
  lemma {:induction false} StuckSubmit(c: Config, s: State)
    requires Groups(c, s) && s.status == Running && Stuck(c, s)
    ensures s.sub == NoSub
  {
    hide Describing, Pacing, Serving, Interrupting, CqRelated, SqRelated;
    assert Blocked(c, s, SetupCmd) && Blocked(c, s, RingSqDb) && Blocked(c, s, EnqueueCmd) && Blocked(c, s, BuildPrp);
    if s.sub.Build? { BuildEnabled(c, s); }
  }

  lemma BuildEnabled(c: Config, s: State)
    requires Groups(c, s) && s.sub.Build?
    ensures s.sub.r in s.mem.bufs && s.sub.id in s.cmds
  {
    hide Describing, Related;
    StagesOrdered(c, s);
    PostedBelow(c, s);
    assert Alive(Issued(s.h, s.sub), s.h.posted, ReleasedN(s.h, s.irq), s.sub.r);
    assert Listed(c, s.cmds, s.mem.live, s.sub.r);
  }

  /** Steps of the device and of the interrupt thread. */
  predicate Outside(a: Action) {
    || a.DevFetch? || a.DevPost? || a.DevIrq?
    || a.IrqWake? || a.IrqCheck? || a.IrqHandle? || a.IrqRelease? || a.IrqAdvance? || a.IrqRing?
  }

  /** None of them can move, but for completions of the requests in `kept`. */
  ghost predicate Quiet(c: Config, s: State, kept: set<nat>) {
    forall a :: Outside(a) && !(a.DevPost? && a.c.tag in kept) ==> Apply(c, s, a).None?
  }

  lemma StuckQuiet(c: Config, s: State)
    requires Stuck(c, s)
    ensures Quiet(c, s, {})
  {
    hide Apply;
  }

  /** Every place inside the handler has its next step enabled. */
  lemma {:induction false} IrqNeverBlocks(c: Config, s: State, kept: set<nat>)
    requires Groups(c, s) && s.status == Running
    ensures !s.irq.Idle? ==> !Quiet(c, s, kept)
  {
    hide Describing, Pacing, Serving, Table, Holding, SqRelated, Interrupting, Delivery;
    hide CqePending, Callback, GivePages, UpdateCqHead, RingCqDoorbell;
    match s.irq
    case Check(_) => assert !Blocked(c, s, IrqCheck);
    case Handle(_) => assert !Blocked(c, s, IrqHandle);
    case Release(_) => HandledIsListed(c, s); assert !Blocked(c, s, IrqRelease);
    case Advance => assert !Blocked(c, s, IrqAdvance);
    case RingCq => assert !Blocked(c, s, IrqRing);
    case Idle =>
  }

  lemma {:induction false} QuietIrq(c: Config, s: State, kept: set<nat>)
    requires Groups(c, s) && s.status == Running && Quiet(c, s, kept)
    ensures s.irq.Idle? && s.dev.irqs == 0 && !s.dev.owed && s.h.consumed == s.h.rung == |s.h.posted|
  {
    hide Describing, Pacing, Serving, Table, Holding, SqRelated, IrqStep;
    IrqNeverBlocks(c, s, kept);
    assert Blocked(c, s, IrqWake) && Blocked(c, s, DevIrq);
    WakeEnabled(s);
  }

  lemma {:induction false} StuckIrq(c: Config, s: State)
    requires Groups(c, s) && s.status == Running && Stuck(c, s)
    ensures s.irq.Idle? && s.dev.irqs == 0 && !s.dev.owed && s.h.consumed == s.h.rung == |s.h.posted|
  {
    hide Groups, Stuck, Quiet;
    StuckQuiet(c, s);
    QuietIrq(c, s, {});
  }

  lemma WakeEnabled(s: State)
    ensures s.irq.Idle? && 0 < s.dev.irqs ==> IrqStep(s, IrqWake).Some?
  {
  }

  /** The device then has fetched all it can see and holds only those kept. */
  lemma {:induction false} QuietDevice(c: Config, s: State, kept: set<nat>)
    requires Groups(c, s) && s.status == Running && Quiet(c, s, kept)
    ensures s.h.fetched == s.h.published && (forall x :: x in s.dev.held ==> x.tag in kept)
    ensures kept == {} ==> s.dev.held == {}
  {
    hide Describing, Pacing, Table, Holding;
    QuietIrq(c, s, kept);
    CanFetchMeans(s.q, s.h);
    assert Blocked(c, s, DevFetch);
    EmptyCqCanPost(s.q, s.h);
    forall x | x in s.dev.held ensures x.tag in kept { assert Blocked(c, s, DevPost(x)) || x.tag in kept; }
  }

  lemma {:induction false} StuckDevice(c: Config, s: State)
    requires Groups(c, s) && s.status == Running && Stuck(c, s)
    ensures |s.h.posted| == s.h.fetched == |s.h.submitted|
  {
    hide Describing, Pacing, Table, Holding, Stuck, Quiet, Related;
    StuckQuiet(c, s);
    QuietDevice(c, s, {});
    StuckSubmit(c, s);
  }

  lemma EmptyCqCanPost(q: Queue, h: History)
    requires Related(q, h) && h.rung == |h.posted|
    ensures CanPost(q) && q.devCqTail < |q.cq|
  {
  }

  lemma {:induction false} StuckThread(c: Config, s: State)
    requires Groups(c, s) && s.status == Running && Stuck(c, s)
    ensures s.eng.running && !s.eng.post && s.eng.batch == [] && (s.eng.completed < c.count ==> s.done == [])
  {
    hide Describing, Table, Holding, Related, Serving, Interrupting;
    StuckSubmit(c, s);
    assert Blocked(c, s, Fill) && Blocked(c, s, FillDone) && Blocked(c, s, Collect) && Blocked(c, s, Process)
      && Blocked(c, s, Drain) && Blocked(c, s, OnCompleted);
  }

  /** A state of a flow in which nothing can move is the end of the flow, with every request
      that was to be completed completed -- exactly when the configuration lets the thread
      keep a request going at all. */
  lemma {:induction false} StuckIsFinished(c: Config, s: State)
    requires Groups(c, s) && s.status == Running && Stuck(c, s)
    ensures s.eng.completed >= c.count <==> c.count == 0 || (1 <= c.avg && 1 <= c.cap)
  {
    hide Describing, Table, Holding, Related, Serving, Interrupting;
    StuckSubmit(c, s);
    StuckIrq(c, s);
    StuckDevice(c, s);
    StuckThread(c, s);
  }

  // ---- the end of a run ----

  /** The configurations whose flows end as they should: requests are kept going, and no more
      of them are started than are to be completed. */
  predicate Ends(c: Config) {
    c.avg <= c.count && (c.count == 0 || (1 <= c.avg && 1 <= c.cap))
  }

  /** Every request was submitted, called back exactly once and processed, in an order that
      is a permutation of 0..count; and all memory is back as it was. */
  ghost predicate Finished(c: Config, s: State) {
    && s.eng.submitted == s.eng.completed == |s.log| == c.count
    && s.eng.inflight == 0 && s.eng.waiting == [] && s.done == []
    && (forall r: nat :: r < c.count <==> r in s.log)
    && (forall i, j :: 0 <= i < j < |s.log| ==> s.log[i] != s.log[j])
    && |s.h.submitted| == s.h.fetched == |s.h.posted| == s.h.consumed == c.count
    && s.cmds == map[]
    && s.mem.live == c.fixed && s.mem.holes == c.holes
  }

  lemma {:induction false} FinishedCounts(c: Config, s: State)
    requires Groups(c, s) && s.status == Running && Stuck(c, s) && Ends(c)
    ensures s.eng.submitted == s.eng.completed == |s.log| == c.count
    ensures s.eng.inflight == 0 && s.eng.waiting == [] && s.done == []
    ensures |s.h.submitted| == s.h.fetched == |s.h.posted| == s.h.consumed == c.count
    ensures s.sub == NoSub && s.irq.Idle?
  {
    hide Describing, Table, Holding, Related, Serving, Interrupting;
    StuckSubmit(c, s);
    StuckIrq(c, s);
    StuckDevice(c, s);
    StuckThread(c, s);
    StuckIsFinished(c, s);
    StagesOrdered(c, s);
  }

  /** n distinct numbers below n are all of them. */
  lemma {:induction false} Pigeonhole(n: nat, s: seq<nat>)
    requires |s| == n && (forall i, j :: 0 <= i < j < |s| ==> s[i] != s[j]) && (forall i :: 0 <= i < |s| ==> s[i] < n)
    ensures forall r: nat :: r < n ==> r in s
  {
    RestSize(n, s);
    forall r: nat | r < n ensures r in s {
      assert r !in Rest(n, s);
    }
  }

  lemma {:induction false} NothingLeft(c: Config, s: State)
    requires GoodConfig(c) && Groups(c, s) && s.sub == NoSub && s.irq.Idle?
    requires s.eng.submitted == s.eng.completed == |s.log| == |s.h.submitted| == |s.h.posted| == s.h.consumed
    requires forall r: nat :: r < |s.log| ==> r in s.log
    ensures s.cmds == map[] && s.mem.live == c.fixed
  {
    hide Describing, Related, Serving, Interrupting, Pacing, Partition, Listed;
    var n := |s.log|;
    forall r: nat | r < n ensures Processed(s.log, n, r) && Gone(s.h.posted, n, r) {
      assert r in s.log;
      var j :| 0 <= j < n && s.log[j] == r;
      assert s.h.posted[j].tag == r;
    }
    forall r: nat ensures Data(r) !in s.mem.live && ListOf(r) !in s.mem.live {
      assert ListOf(r) in s.mem.live ==> Alive(n, s.h.posted, n, r);
    }
    forall o | o in s.mem.live ensures o in c.fixed {
      assert o == Fixed(o.i);
    }
    forall o | o in c.fixed ensures o in s.mem.live && s.mem.live[o] == c.fixed[o] {
      assert o == Fixed(o.i);
    }
    assert s.cmds.Keys == {};
  }

  lemma EndFinished(c: Config, s: State)
    requires GoodConfig(c) && Groups(c, s) && s.status == Running && Stuck(c, s) && Ends(c)
    ensures Finished(c, s)
  {
    hide GoodConfig, Table, Describing, Related, Serving, Interrupting, Pacing;
    FinishedCounts(c, s);
    LogDistinct(c, s);
    Pigeonhole(c.count, s.log);
    NothingLeft(c, s);
    FixedPartition(c);
    SameBlocksSameHoles(c.lo, c.hi, s.mem.holes, c.holes, c.fixed);
  }

  lemma FixedPartition(c: Config)
    requires GoodConfig(c)
    ensures Partition(c.lo, c.hi, c.holes, c.fixed)
  {
  }
}
