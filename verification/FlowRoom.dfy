/** Flows with enough memory: no allocation fails, so a run ends only when it is finished. */
module FlowRoom {
  import opened Arith
  import opened Wrappers
  import opened HoleList
  import opened Memory
  import opened Arena
  import opened Commands
  import opened QueuePair
  import opened FlowModel
  import opened FlowInvariant
  import opened FlowKeeps
  import opened FlowTheorems
  import Prp

  /** No block of the flow is longer than `most`, and the region is larger than what as many
      blocks as can be live, and holes too small for one more, take up. */
  ghost predicate Roomy(c: Config, most: nat) {
    && PAGE <= most && (forall r :: c.size(r) <= most) && (forall o :: o in c.fixed ==> c.fixed[o].len <= most)
    && c.hi - c.lo > Times(MostLive(c), most) + Times(MostLive(c) + 1, most - 1)
  }

  /** Some hole takes one more block, however fragmented the region is. */
  lemma {:induction false} RoomForOne(c: Config, most: nat, m: Mem, size: nat)
    requires Roomy(c, most) && Partition(c.lo, c.hi, m.holes, m.live) && |m.live| <= MostLive(c)
    requires forall o :: o in m.live ==> m.live[o].len <= most
    requires 0 < size <= most && size % PAGE == 0
    ensures FitIndex(m.holes, size, PAGE) < |m.holes|
  {
    hide Times, MostLive, Partition;
    TimesMono(|m.live|, MostLive(c), most, most);
    TimesMono(|m.live| + 1, MostLive(c) + 1, size - 1, most - 1);
    RoomForBlock(c.lo, c.hi, m.holes, m.live, most, size);
  }

  lemma LiveSizes(c: Config, most: nat, s: State)
    requires Roomy(c, most) && Groups(c, s)
    ensures forall o :: o in s.mem.live ==> s.mem.live[o].len <= most
  {
    hide Times, MostLive, Partition, Pacing, Queueing, Serving, Interrupting, Delivery, Table, Described;
    forall o | o in s.mem.live ensures s.mem.live[o].len <= most {
      match o
      case Fixed(i) =>
      case Data(r) => assert Buffered(c, s.mem, r);
      case ListOf(n) =>
    }
  }

  lemma PartitionOf(c: Config, s: State)
    requires Groups(c, s)
    ensures Partition(c.lo, c.hi, s.mem.holes, s.mem.live)
  {
  }

  lemma SizeWithin(c: Config, most: nat, r: nat)
    requires GoodConfig(c) && Roomy(c, most)
    ensures 0 < c.size(r) <= most && c.size(r) % PAGE == 0 && PAGE <= most && PageUp(c.size(r)) == c.size(r)
  {
  }

  lemma {:induction false} BufferFits(c: Config, most: nat, s: State, r: nat)
    requires GoodConfig(c) && Roomy(c, most) && Groups(c, s)
    ensures TakeBuffer(s.mem, r, c.size(r)).Some? && FitIndex(s.mem.holes, PAGE, PAGE) < |s.mem.holes|
  {
    hide GoodConfig, Roomy, Groups, Partition;
    SizeWithin(c, most, r);
    LiveBounded(c, s);
    LiveSizes(c, most, s);
    PartitionOf(c, s);
    RoomForOne(c, most, s.mem, c.size(r));
    RoomForOne(c, most, s.mem, PAGE);
  }

  lemma {:induction false} ListFits(c: Config, most: nat, s: State)
    requires GoodConfig(c) && Roomy(c, most) && Groups(c, s) && s.sub.Build?
    ensures s.sub.r in s.mem.bufs && BuildList(s.mem, s.sub.r, c.size(s.sub.r)).Some?
  {
    hide GoodConfig, Roomy, Groups, Partition, TakeBuffer, Prp.Setup;
    var r := s.sub.r;
    BuildReady(c, s);
    BufferFits(c, most, s, r);
    SizeFits(c, r);
    PartitionOf(c, s);
    HolesOf(c, s.mem);
    var k := FitIndex(s.mem.holes, PAGE, PAGE);
    PageOfHole(s.mem.holes, k);
    if c.size(r) > 2 * PAGE {
      assert Prp.Pages([AllocAddr(s.mem.holes[k], PAGE)]);
      Prp.OnePageRoundTrip(s.mem.words, [AllocAddr(s.mem.holes[k], PAGE)], s.mem.bufs[r], c.size(r));
    }
  }

  lemma HolesOf(c: Config, m: Mem)
    requires Partition(c.lo, c.hi, m.holes, m.live)
    ensures PageHoles(m.holes)
  {
  }

  /** With enough memory every step leaves the flow running. */
  lemma {:induction false} StepStaysRunning(c: Config, most: nat, s: State, a: Action)
    requires GoodConfig(c) && Roomy(c, most) && Groups(c, s) && Apply(c, s, a).Some?
    ensures Apply(c, s, a).value.status != NoMemory
  {
    hide GoodConfig, Roomy, Groups, ThreadStep, SubmitStep, DeviceStep, IrqStep;
    BufferFits(c, most, s, s.eng.submitted);
    if s.sub.Build? { ListFits(c, most, s); }
    ThreadStaysRunning(c, s, a);
    SubmitStaysRunning(c, s, a);
    OthersStayRunning(s, a);
  }

  lemma ThreadStaysRunning(c: Config, s: State, a: Action)
    requires s.status == Running && TakeBuffer(s.mem, s.eng.submitted, c.size(s.eng.submitted)).Some?
    ensures ThreadStep(c, s, a).Some? ==> ThreadStep(c, s, a).value.status != NoMemory
  {
    hide TakeBuffer, GiveBuffer;
  }

  lemma SubmitStaysRunning(c: Config, s: State, a: Action)
    requires s.status == Running
    requires s.sub.Build? ==> s.sub.r in s.mem.bufs && BuildList(s.mem, s.sub.r, c.size(s.sub.r)).Some?
    ensures SubmitStep(c, s, a).Some? ==> SubmitStep(c, s, a).value.status != NoMemory
  {
    hide BuildList, WriteSqe;
  }

  lemma OthersStayRunning(s: State, a: Action)
    requires s.status == Running
    ensures DeviceStep(s, a).Some? ==> DeviceStep(s, a).value.status != NoMemory
    ensures IrqStep(s, a).Some? ==> IrqStep(s, a).value.status != NoMemory
  {
    hide GivePages, Fetch, Post;
  }

  /** No allocation of any run fails. */
  lemma {:induction false} RunStaysRunning(c: Config, most: nat, s: State, acts: seq<Action>)
    requires GoodConfig(c) && QueueRoom(c) && Roomy(c, most) && Inv(c, s) && s.status == Running && FreshRun(c, s, acts)
    ensures Exec(c, s, acts).Some? && Exec(c, s, acts).value.status == Running
    decreases |acts|
  {
    hide GoodConfig, QueueRoom, Roomy, Groups, FreshId, ThreadStep, SubmitStep, DeviceStep, IrqStep;
    if acts != [] {
      StepKeeps(c, s, acts[0]);
      StepStaysRunning(c, most, s, acts[0]);
      RunStaysRunning(c, most, Apply(c, s, acts[0]).value, acts[1..]);
    }
  }

  // ---- the end ----

  /** Where nothing can move, the flow is finished exactly under that condition. */
  lemma {:induction false} FinishedExactly(c: Config, s: State)
    requires GoodConfig(c) && Groups(c, s) && s.status == Running && Stuck(c, s)
    ensures Finished(c, s) <==> Ends(c)
  {
    hide GoodConfig, Groups, Stuck;
    StuckIsFinished(c, s);
    StuckSubmitted(c, s);
    if Ends(c) { EndFinished(c, s); }
  }

  lemma StuckSubmitted(c: Config, s: State)
    requires Groups(c, s) && s.status == Running && Stuck(c, s)
    ensures c.avg > c.count ==> s.eng.submitted == c.avg
  {
    hide Describing, Table, Holding, Related, Serving, Interrupting;
    StuckThread(c, s);
  }

  /** The capstone.  Every run stays running, and one that can go no further has completed
      every request exactly once and returned the allocator to the hole list it started
      from -- exactly when the configuration satisfies Ends. */
  lemma {:induction false} FlowCompletes(c: Config, most: nat, acts: seq<Action>)
    requires GoodConfig(c) && QueueRoom(c) && Roomy(c, most) && FreshRun(c, Init(c), acts)
    ensures var r := Exec(c, Init(c), acts);
      r.Some? && r.value.status == Running && (Stuck(c, r.value) ==> (Finished(c, r.value) <==> Ends(c)))
  {
    hide GoodConfig, QueueRoom, Roomy, Groups, FreshRun, Apply, Init, Finished, Ends, Stuck;
    InitInv(c);
    RunKeeps(c, Init(c), acts);
    InitRunning(c);
    RunStaysRunning(c, most, Init(c), acts);
    var s := Exec(c, Init(c), acts).value;
    InvRunning(c, s);
    if Stuck(c, s) { FinishedExactly(c, s); }
  }

  lemma InitRunning(c: Config)
    ensures Init(c).status == Running
  {
  }

  lemma SomeAction(c: Config, s: State) returns (a: Action)
    requires !Stuck(c, s)
    ensures Apply(c, s, a).Some?
  {
    hide Apply;
    a :| !Apply(c, s, a).None?;
  }

  /** A flow that can move can move without registering a command under an id in use: if that
      is what the thread is about to do, the command that has the id can go on. */
  lemma {:induction false} SafeAction(c: Config, s: State) returns (a: Action)
    requires Groups(c, s) && s.status == Running && !Stuck(c, s)
    ensures Apply(c, s, a).Some? && (a == SetupCmd ==> FreshId(s))
  {
    hide Groups, Apply, Stuck, Quiet, FreshId;
    if Quiet(c, s, {}) {
      QuietIsFresh(c, s);
      a := SomeAction(c, s);
    } else {
      a := SomeOutside(c, s);
    }
  }

  lemma SomeOutside(c: Config, s: State) returns (a: Action)
    requires !Quiet(c, s, {})
    ensures Apply(c, s, a).Some? && a != SetupCmd
  {
    hide Apply;
    a :| Outside(a) && !Apply(c, s, a).None?;
  }

  /** Every run can be continued to such an end. */
  lemma {:induction false} EndReachable(c: Config, most: nat, s: State) returns (acts: seq<Action>)
    requires GoodConfig(c) && QueueRoom(c) && Roomy(c, most) && Inv(c, s) && s.status == Running
    ensures FreshRun(c, s, acts)
    ensures Exec(c, s, acts).Some? && Exec(c, s, acts).value.status == Running && Stuck(c, Exec(c, s, acts).value)
    decreases c.avg + 18 * Largest(c) + 3 - Progress(s)
  {
    hide GoodConfig, QueueRoom, Roomy, Groups, FreshId, Progress, ThreadStep, SubmitStep, DeviceStep, IrqStep;
    acts := [];
    InvRunning(c, s);
    if !Stuck(c, s) {
      var a := SafeAction(c, s);
      var s' := Apply(c, s, a).value;
      StepKeeps(c, s, a);
      StepStaysRunning(c, most, s, a);
      StepAdvances(c, s, a);
      ProgressBounded(c, s);
      InvRunning(c, s');
      ProgressBounded(c, s');
      var rest := EndReachable(c, most, s');
      acts := [a] + rest;
      assert acts[1..] == rest;
    }
  }

  /** The hypotheses can be met: one page at a time in a fresh region of 64 pages. */
  lemma HypothesesMet() returns (c: Config)
    ensures GoodConfig(c) && QueueRoom(c) && Roomy(c, PAGE) && Ends(c) && c.count == 1
  {
    SeededPartition<Owner>(0, 64 * PAGE);
    c := Config(2, 1, 1, 1, (r: nat) => PAGE, 0, 0, 64 * PAGE, HoleList.Release([], 0, 64 * PAGE), map[]);
  }
}
