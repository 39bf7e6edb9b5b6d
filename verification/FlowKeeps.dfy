/** Every step of a flow keeps every group of the invariant. */
module FlowKeeps {
  import opened Arith
  import opened Wrappers
  import opened HoleList
  import opened Memory
  import opened Arena
  import opened QueuePair
  import opened Commands
  import opened FlowModel
  import opened FlowInvariant
  import Prp
  import SlotTable

  // ---- the initial state ----

  lemma {:induction false} InitInv(c: Config)
    requires GoodConfig(c)
    ensures Inv(c, Init(c))
  {
    var s := Init(c);
    InitRelated(c.depth);
    ModSmall(c.firstId, IDS);
    assert Serving(s.h, s.dev.held);
    assert Interrupting(s.h, s.dev, s.irq);
    assert Delivery(s.h, s.irq, s.log, s.done, s.eng);
    InitMemory(c);
  }

  lemma InitMemory(c: Config)
    requires GoodConfig(c)
    ensures var s := Init(c);
      && Table(c, s.cmds, s.mem.live, 0, [], 0)
      && Holding(c, s.mem, 0, [], 0)
      && Describing(c, s.mem, s.h, s.sub, [])
  {
    assert forall n: nat :: ListOf(n) !in c.fixed && Data(n) !in c.fixed;
  }

  // ---- the I/O thread takes a buffer ----

  /** The live map changes only in data buffers. */
  ghost predicate SameLists(m: Mem, m': Mem) {
    forall n: nat :: (ListOf(n) in m.live <==> ListOf(n) in m'.live)
                     && (ListOf(n) in m.live ==> m'.live[ListOf(n)] == m.live[ListOf(n)])
  }

  lemma TableSameLists(c: Config, cmds: CommandMap, m: Mem, m': Mem, issued: nat, posted: seq<Sqe>, k: nat)
    requires Table(c, cmds, m.live, issued, posted, k) && SameLists(m, m')
    ensures Table(c, cmds, m'.live, issued, posted, k)
  {
    forall n: nat | Alive(issued, posted, k, n) ensures Listed(c, cmds, m'.live, n) {
      assert Listed(c, cmds, m.live, n);
    }
  }

  /** Descriptions survive when memory contents and the described buffers stay. */
  lemma DescribingSame(c: Config, m: Mem, m': Mem, h: History, sub: Sub, sub': Sub, log: seq<nat>)
    requires Describing(c, m, h, sub, log) && SameLists(m, m') && m'.words == m.words
    requires forall n: nat :: n < |h.submitted| + (if sub.Enqueue? then 1 else 0) && n in m.bufs ==>
               n in m'.bufs && m'.bufs[n] == m.bufs[n]
    requires sub.Enqueue? ==> sub.r == |h.submitted|
    requires sub' == sub || (!sub.Enqueue? && !sub'.Enqueue?)
    ensures Describing(c, m', h, sub', log)
  {
    forall n | 0 <= n < |h.submitted| && !Processed(log, |log|, n)
      ensures Described(c, m', h.submitted[n].prp1, h.submitted[n].prp2, n)
    {
      assert Described(c, m, h.submitted[n].prp1, h.submitted[n].prp2, n);
    }
  }

  lemma {:induction false} TakeBufferKeeps(c: Config, m: Mem, r: nat, log: seq<nat>, k: nat)
    requires Holding(c, m, r, log, k) && 0 < c.size(r) && c.size(r) % PAGE == 0
    requires !Processed(log, k, r)
    requires TakeBuffer(m, r, c.size(r)).Some?
    ensures var m' := TakeBuffer(m, r, c.size(r)).value;
      && Holding(c, m', r + 1, log, k)
      && SameLists(m, m') && m'.words == m.words
      && (forall n: nat :: n < r && n in m.bufs ==> n in m'.bufs && m'.bufs[n] == m.bufs[n])
  {
    assert Data(r) !in m.live;
    AllocateKeeps(c.lo, c.hi, m.holes, m.live, c.size(r), Data(r));
  }

  lemma WholePages(c: Config, r: nat)
    requires GoodConfig(c)
    ensures c.size(r) % PAGE == 0
  {
  }

  lemma SubmittedBelow(c: Config, s: State)
    requires Groups(c, s) && s.sub == NoSub
    ensures |s.h.submitted| <= s.eng.submitted && (s.sub.Enqueue? ==> s.sub.r == |s.h.submitted|)
  {
    hide Holding, Table, Describing, Related, Serving, Interrupting, Delivery;
  }

  /** submit_io_request, up to the choice of queue. */
  lemma {:induction false} SubmitIoMemory(c: Config, s: State, e: Engine)
    requires GoodConfig(c) && Groups(c, s) && s.sub == NoSub
    requires e.submitted == s.eng.submitted && SubmitIo(c, s.(eng := e)).status == Running
    ensures var s' := SubmitIo(c, s.(eng := e));
      && Table(c, s'.cmds, s'.mem.live, Issued(s'.h, s'.sub), s'.h.posted, ReleasedN(s'.h, s'.irq))
      && Holding(c, s'.mem, s.eng.submitted + 1, s'.log, s.eng.completed)
      && Describing(c, s'.mem, s'.h, s'.sub, s'.log)
  {
    hide Partition, Described, Buffered, Related, Pacing, Serving, Interrupting, Delivery, Listed, Table, Alive, Processed;
    var r := s.eng.submitted;
    SubmittedBelow(c, s);
    SizeFits(c, r);
    WholePages(c, r);
    LogBelow(c, s, r);
    var m' := TakeBuffer(s.mem, r, c.size(r)).value;
    TakeBufferKeeps(c, s.mem, r, s.log, s.eng.completed);
    TableSameLists(c, s.cmds, s.mem, m', Issued(s.h, s.sub), s.h.posted, ReleasedN(s.h, s.irq));
    var s' := SubmitIo(c, s.(eng := e));
    DescribingSame(c, s.mem, m', s.h, s.sub, s'.sub, s.log);
  }

  /** Requests not yet submitted were never called back. */
  lemma LogBelow(c: Config, s: State, r: nat)
    requires Groups(c, s) && r >= |s.h.submitted|
    ensures forall k :: !Processed(s.log, k, r)
  {
    forall j | 0 <= j < |s.log| ensures s.log[j] < |s.h.submitted| {
      assert FetchedEntry(s.h, s.h.posted[j]);
    }
  }

  // ---- the I/O thread's steps ----

  lemma {:induction false} FillKeeps(c: Config, s: State)
    requires GoodConfig(c) && Groups(c, s) && s.status == Running && ThreadStep(c, s, Fill).Some?
    ensures Inv(c, ThreadStep(c, s, Fill).value)
  {
    hide Serving, Interrupting, Table, Holding, Describing, GoodConfig, TakeBuffer, Related, Numbered;
    var e := s.eng.(fill := s.eng.fill + 1);
    var s' := ThreadStep(c, s, Fill).value;
    assert s' == SubmitIo(c, s.(eng := e));
    if s'.status == Running {
      SubmitIoMemory(c, s, e);
      EnlistPaces(c, e, Dispatched(s.h, s.sub));
    }
  }

  lemma {:induction false} OnCompletedKeeps(c: Config, s: State)
    requires GoodConfig(c) && Groups(c, s) && s.status == Running && ThreadStep(c, s, OnCompleted).Some?
    ensures Inv(c, ThreadStep(c, s, OnCompleted).value)
  {
    hide Serving, Interrupting, Table, Holding, Describing, GoodConfig, TakeBuffer, Related, Numbered;
    var e := s.eng.(post := false);
    var s' := ThreadStep(c, s, OnCompleted).value;
    if s.eng.submitted < c.count {
      assert s' == SubmitIo(c, s.(eng := e));
      if s'.status == Running {
        SubmitIoMemory(c, s, e);
        EnlistPaces(c, e, Dispatched(s.h, s.sub));
      }
    }
  }

  lemma {:induction false} FillDoneKeeps(c: Config, s: State)
    requires GoodConfig(c) && Groups(c, s) && s.status == Running && ThreadStep(c, s, FillDone).Some?
    ensures Inv(c, ThreadStep(c, s, FillDone).value)
  {
    hide Queueing, Serving, Interrupting, Table, Holding, Describing, GoodConfig;
  }

  lemma {:induction false} CollectKeeps(c: Config, s: State)
    requires GoodConfig(c) && Groups(c, s) && s.status == Running && ThreadStep(c, s, Collect).Some?
    ensures Inv(c, ThreadStep(c, s, Collect).value)
    ensures var s' := ThreadStep(c, s, Collect).value; s'.done == [] && s'.eng.batch == s.log[s.eng.completed..]
  {
    hide Queueing, Serving, Interrupting, Table, Holding, Describing, GoodConfig;
    var s' := ThreadStep(c, s, Collect).value;
    assert s.log[s.eng.completed..s.eng.completed] == [];
    assert Delivery(s'.h, s'.irq, s'.log, s'.done, s'.eng);
  }

  lemma {:induction false} DrainKeeps(c: Config, s: State)
    requires GoodConfig(c) && Groups(c, s) && s.status == Running && ThreadStep(c, s, Drain).Some?
    ensures Inv(c, ThreadStep(c, s, Drain).value)
  {
    hide Serving, Interrupting, Table, Holding, Describing, GoodConfig, Related;
    var s' := ThreadStep(c, s, Drain).value;
    assert Pacing(c, s'.eng, Dispatched(s'.h, s'.sub));
    DescribingSame(c, s.mem, s.mem, s.h, s.sub, s'.sub, s.log);
  }

  // ---- processing a completed request ----

  lemma {:induction false} GiveBufferKeeps(c: Config, m: Mem, submitted: nat, log: seq<nat>, k: nat)
    requires GoodConfig(c) && Holding(c, m, submitted, log, k) && k < |log| && log[k] < submitted
    requires forall i, j :: 0 <= i < j < |log| ==> log[i] != log[j]
    requires GiveBuffer(m, log[k], c.size(log[k])).Some?
    ensures var m' := GiveBuffer(m, log[k], c.size(log[k])).value;
      && Holding(c, m', submitted, log, k + 1)
      && SameLists(m, m') && m'.words == m.words && m'.bufs == m.bufs
  {
    hide Partition, GoodConfig, Processed;
    var r := log[k];
    NotYetProcessed(log, k);
    assert Buffered(c, m, r);
    FreeKeeps(c.lo, c.hi, m.holes, m.live, Data(r));
    var m' := GiveBuffer(m, r, c.size(r)).value;
    ProcessedStep(log, k);
    forall x: nat | x < submitted && !Processed(log, k + 1, x) ensures Buffered(c, m', x) {
      assert Buffered(c, m, x);
    }
  }

  lemma NotYetProcessed(log: seq<nat>, k: nat)
    requires k < |log| && forall i, j :: 0 <= i < j < |log| ==> log[i] != log[j]
    ensures !Processed(log, k, log[k])
  {
  }

  lemma ProcessedStep(log: seq<nat>, k: nat)
    requires k < |log|
    ensures forall x: nat :: Processed(log, k + 1, x) <==> Processed(log, k, x) || x == log[k]
  {
    forall x: nat ensures Processed(log, k + 1, x) <==> Processed(log, k, x) || x == log[k] {
      if Processed(log, k, x) {
        var j :| 0 <= j < k && j < |log| && log[j] == x;
        assert 0 <= j < k + 1 && log[j] == x;
      }
    }
  }

  lemma LogDistinct(c: Config, s: State)
    requires Groups(c, s)
    ensures forall i, j :: 0 <= i < j < |s.log| ==> s.log[i] != s.log[j]
    ensures forall j :: 0 <= j < |s.log| ==> s.log[j] < s.h.fetched <= |s.h.submitted| <= s.eng.submitted
  {
    forall j | 0 <= j < |s.log| ensures s.log[j] < s.h.fetched {
      assert FetchedEntry(s.h, s.h.posted[j]);
    }
  }

  /** Every stage of a request's life comes after the one before it. */
  lemma StagesOrdered(c: Config, s: State)
    requires Groups(c, s)
    ensures s.eng.completed + |s.eng.batch| + |s.done| == |s.log| == FiredN(s.h, s.irq)
    ensures ReleasedN(s.h, s.irq) <= |s.log| <= |s.h.posted| <= s.h.fetched <= s.h.published <= |s.h.submitted|
    ensures |s.h.submitted| <= Issued(s.h, s.sub) <= Dispatched(s.h, s.sub) <= s.eng.submitted
  {
    hide Holding, Table, Describing, Interrupting, Numbered, CqRelated, FetchedEntry;
  }

  /** No free aborts: the blocks in use stay within the bound that keeps a table slot free. */
  lemma {:induction false} RoomInTable(c: Config, s: State)
    requires GoodConfig(c) && Groups(c, s)
    ensures |s.mem.holes| < SlotTable.NR_HOLES
  {
    HolesBounded(c.lo, c.hi, s.mem.holes, s.mem.live);
    LiveBounded(c, s);
  }

  lemma {:induction false} ProcessKeeps(c: Config, s: State)
    requires GoodConfig(c) && Groups(c, s) && s.status == Running && ThreadStep(c, s, Process).Some?
    ensures Inv(c, ThreadStep(c, s, Process).value)
  {
    hide Queueing, Serving, Interrupting, Table, Describing, Holding, GoodConfig, ThreadStep, GiveBuffer;
    var s' := ThreadStep(c, s, Process).value;
    var e, k := s.eng, s.eng.completed;
    ProcessGuard(c, s);
    LogDistinct(c, s);
    RoomInTable(c, s);
    assert e.batch[0] == s.log[k];
    HasBuffer(c, s.mem, e.submitted, s.log, k);
    ProcessShape(c, s);
    GiveBufferKeeps(c, s.mem, e.submitted, s.log, k);
    TableSameLists(c, s.cmds, s.mem, s'.mem, Issued(s.h, s.sub), s.h.posted, ReleasedN(s.h, s.irq));
    DescribingSame(c, s.mem, s'.mem, s.h, s.sub, s.sub, s.log);
    ProcessDelivery(s.h, s.irq, s.log, s.done, e, s'.eng);
    StagesOrdered(c, s);
    assert Pacing(c, s'.eng, Dispatched(s'.h, s'.sub));
  }

  lemma ProcessGuard(c: Config, s: State)
    requires ThreadStep(c, s, Process).Some?
    ensures s.eng.running && s.eng.batch != [] && !s.eng.post && s.sub == NoSub
  {
  }

  lemma HasBuffer(c: Config, m: Mem, submitted: nat, log: seq<nat>, k: nat)
    requires Holding(c, m, submitted, log, k) && k < |log| && log[k] < submitted
    ensures log[k] in m.bufs
  {
  }

  lemma ProcessShape(c: Config, s: State)
    requires ThreadStep(c, s, Process).Some? && s.eng.batch != [] && s.eng.batch[0] in s.mem.bufs
    requires |s.mem.holes| < SlotTable.NR_HOLES
    ensures var e, r := s.eng, s.eng.batch[0]; var m := GiveBuffer(s.mem, r, c.size(r));
      && m.Some?
      && ThreadStep(c, s, Process).value == s.(mem := m.value,
           eng := e.(inflight := e.inflight - 1, completed := e.completed + 1, batch := e.batch[1..], post := true))
  {
  }

  lemma ProcessDelivery(h: History, irq: Irq, log: seq<nat>, done: seq<nat>, e: Engine, e': Engine)
    requires Delivery(h, irq, log, done, e) && e.batch != []
    requires e'.completed == e.completed + 1 && e'.batch == e.batch[1..]
    ensures Delivery(h, irq, log, done, e')
  {
    assert e.completed + |e.batch| == e'.completed + |e'.batch|;
  }

  // ---- counting live blocks ----

  ghost function Image(ns: set<nat>, list: bool): set<Owner> {
    set n | n in ns :: if list then ListOf(n) else Data(n)
  }

  lemma {:induction false} ImageSize(ns: set<nat>, list: bool)
    ensures |Image(ns, list)| == |ns|
    decreases |ns|
  {
    if ns != {} {
      var n :| n in ns;
      ImageSize(ns - {n}, list);
      assert Image(ns, list) == Image(ns - {n}, list) + {if list then ListOf(n) else Data(n)};
    } else {
      assert Image(ns, list) == {};
    }
  }

  /** The numbers below n that s does not list. */
  ghost function Rest(n: nat, s: seq<nat>): set<nat> {
    set x | 0 <= x < n && x !in s
  }

  lemma {:induction false} RestSize(n: nat, s: seq<nat>)
    requires forall i, j :: 0 <= i < j < |s| ==> s[i] != s[j]
    requires forall i :: 0 <= i < |s| ==> s[i] < n
    ensures |Rest(n, s)| == n - |s|
    decreases |s|
  {
    if s == [] {
      RestAll(n);
    } else {
      var t, x := s[..|s| - 1], s[|s| - 1];
      RestSize(n, t);
      assert s == t + [x];
      assert Rest(n, t) == Rest(n, s) + {x};
    }
  }

  lemma {:induction false} RestAll(n: nat)
    ensures |Rest(n, [])| == n
  {
    if n > 0 {
      RestAll(n - 1);
      assert Rest(n, []) == Rest(n - 1, []) + {n - 1};
    } else {
      assert Rest(n, []) == {};
    }
  }

  ghost function Tags(posted: seq<Sqe>, k: nat): seq<nat>
    requires k <= |posted|
  {
    seq(k, i requires 0 <= i < k => posted[i].tag)
  }

  lemma {:induction false} LiveBounded(c: Config, s: State)
    requires GoodConfig(c) && Groups(c, s)
    ensures |s.mem.live| <= MostLive(c) <= 510
    ensures |s.mem.live| <= |c.fixed| + (s.eng.submitted - s.eng.completed) + Min(c.cap, c.avg) + 1
  {
    LogDistinct(c, s);
    var k, rel := s.eng.completed, ReleasedN(s.h, s.irq);
    var done, gone := s.log[..k], Tags(s.h.posted, rel);
    var data, lists := Rest(s.eng.submitted, done), Rest(Issued(s.h, s.sub), gone);
    RestSize(s.eng.submitted, done);
    forall i | 0 <= i < rel ensures gone[i] < Issued(s.h, s.sub) {
      assert FetchedEntry(s.h, s.h.posted[i]);
    }
    RestSize(Issued(s.h, s.sub), gone);
    ImageSize(data, false);
    ImageSize(lists, true);
    KeysCovered(c, s);
    SubsetSize(s.mem.live.Keys, c.fixed.Keys + Image(data, false) + Image(lists, true));
    assert |s.mem.live.Keys| == |s.mem.live| && |c.fixed.Keys| == |c.fixed|;
    UnionSize(c.fixed.Keys, Image(data, false), Image(lists, true));
    CountsBounded(c, s);
  }

  lemma UnionSize<T>(a: set<T>, b: set<T>, d: set<T>)
    ensures |a + b + d| <= |a| + |b| + |d|
  {
    assert |a + b| <= |a| + |b|;
    assert |a + b + d| <= |a + b| + |d|;
  }

  lemma CountsBounded(c: Config, s: State)
    requires Groups(c, s)
    ensures s.eng.submitted - s.eng.completed <= c.avg
    ensures Issued(s.h, s.sub) - ReleasedN(s.h, s.irq) <= Min(c.cap, c.avg) + 1
  {
  }

  lemma KeysCovered(c: Config, s: State)
    requires GoodConfig(c) && Groups(c, s) && s.eng.completed <= |s.log| && ReleasedN(s.h, s.irq) <= |s.h.posted|
    ensures s.mem.live.Keys <= c.fixed.Keys
      + Image(Rest(s.eng.submitted, s.log[..s.eng.completed]), false)
      + Image(Rest(Issued(s.h, s.sub), Tags(s.h.posted, ReleasedN(s.h, s.irq))), true)
  {
    var data := Rest(s.eng.submitted, s.log[..s.eng.completed]);
    var lists := Rest(Issued(s.h, s.sub), Tags(s.h.posted, ReleasedN(s.h, s.irq)));
    forall o | o in s.mem.live.Keys
      ensures o in c.fixed.Keys || o in Image(data, false) || o in Image(lists, true)
    {
      match o
      case Fixed(i) =>
      case Data(r) => NotProcessed(s.log, s.eng.completed, r); assert r in data;
      case ListOf(n) => NotGone(s.h.posted, ReleasedN(s.h, s.irq), n); assert n in lists;
    }
  }

  lemma NotProcessed(log: seq<nat>, k: nat, r: nat)
    requires k <= |log|
    ensures Processed(log, k, r) <==> r in log[..k]
  {
    if Processed(log, k, r) {
      var j :| 0 <= j < k && j < |log| && log[j] == r;
      assert log[..k][j] == r;
    }
  }

  lemma NotGone(posted: seq<Sqe>, k: nat, n: nat)
    requires k <= |posted|
    ensures Gone(posted, k, n) <==> n in Tags(posted, k)
  {
    if Gone(posted, k, n) {
      var j :| 0 <= j < k && j < |posted| && posted[j].tag == n;
      assert Tags(posted, k)[j] == n;
    }
  }

  // ---- submit_to_device ----

  /** Registering the next command under a free id. */
  lemma {:induction false} TableAdds(c: Config, cmds: CommandMap, live: map<Owner, Block>, issued: nat, posted: seq<Sqe>, k: nat)
    requires Table(c, cmds, live, issued, posted, k) && k <= |posted|
    requires IdOf(c, issued) !in cmds && ListOf(issued) !in live
    requires forall j :: 0 <= j < |posted| ==> posted[j].tag < issued
    ensures Table(c, SetupCommand(cmds, IdOf(c, issued), Some(issued)), live, issued + 1, posted, k)
  {
    var cmds' := SetupCommand(cmds, IdOf(c, issued), Some(issued));
    forall n: nat | Alive(issued + 1, posted, k, n) ensures Listed(c, cmds', live, n) {
      if n != issued {
        assert Alive(issued, posted, k, n);
        assert Listed(c, cmds, live, n);
      }
    }
    forall id | id in cmds'
      ensures cmds'[id].callback.Some? && Alive(issued + 1, posted, k, cmds'[id].callback.value)
              && IdOf(c, cmds'[id].callback.value) == id
    {
      if id != IdOf(c, issued) { assert id in cmds; }
    }
  }

  lemma {:induction false} SetupCmdKeeps(c: Config, s: State)
    requires GoodConfig(c) && Groups(c, s) && s.status == Running && FreshId(s)
    requires SubmitStep(c, s, SetupCmd).Some?
    ensures Inv(c, SubmitStep(c, s, SetupCmd).value)
  {
    hide Holding, Related, Listed, GoodConfig, Alive;
    var s' := SubmitStep(c, s, SetupCmd).value;
    var n := |s.h.submitted|;
    PostedBelow(c, s);
    StagesOrdered(c, s);
    assert ListOf(n) !in s.mem.live;
    SetupTable(c, s, n);
    assert s.idCounter == IdOf(c, n);
    NextId(c, n);
    DescribingSame(c, s.mem, s.mem, s.h, s.sub, s'.sub, s.log);
  }

  lemma SetupTable(c: Config, s: State, n: nat)
    requires Table(c, s.cmds, s.mem.live, n, s.h.posted, ReleasedN(s.h, s.irq)) && ReleasedN(s.h, s.irq) <= |s.h.posted|
    requires IdOf(c, n) !in s.cmds && ListOf(n) !in s.mem.live
    requires forall j :: 0 <= j < |s.h.posted| ==> s.h.posted[j].tag < n
    ensures Table(c, SetupCommand(s.cmds, IdOf(c, n), Some(n)), s.mem.live, n + 1, s.h.posted, ReleasedN(s.h, s.irq))
  {
    TableAdds(c, s.cmds, s.mem.live, n, s.h.posted, ReleasedN(s.h, s.irq));
  }

  lemma NextId(c: Config, n: nat)
    ensures (IdOf(c, n) + 1) % IDS == IdOf(c, n + 1)
  {
  }

  lemma PostedBelow(c: Config, s: State)
    requires Groups(c, s)
    ensures forall j :: 0 <= j < |s.h.posted| ==> s.h.posted[j].tag < s.h.fetched <= |s.h.submitted|
  {
    forall j | 0 <= j < |s.h.posted| ensures s.h.posted[j].tag < s.h.fetched <= |s.h.submitted| {
      assert FetchedEntry(s.h, s.h.posted[j]);
    }
  }

  // ---- building the PRP entries ----

  lemma SizeFits(c: Config, r: nat)
    requires GoodConfig(c)
    ensures 0 < c.size(r)
    ensures c.size(r) > 2 * PAGE ==> Prp.Entries(c.size(r) - PAGE) <= Prp.PER_PAGE
  {
  }

  /** At most a one-page list for r was added. */
  ghost predicate ListsAdd(m: Mem, m': Mem, r: nat) {
    forall n: nat :: ListOf(n) in m'.live ==>
      if n == r then m'.live[ListOf(n)].len == PAGE
      else ListOf(n) in m.live && m'.live[ListOf(n)] == m.live[ListOf(n)]
  }

  /** The PRP entries of a request describe its buffer, and building them keeps memory sound
      and every other request's description. */
  lemma {:induction false} BuildListMemory(c: Config, m: Mem, r: nat, submitted: nat, log: seq<nat>, k: nat)
    requires GoodConfig(c) && Holding(c, m, submitted, log, k) && r < submitted && !Processed(log, k, r)
    requires ListOf(r) !in m.live && r in m.bufs && BuildList(m, r, c.size(r)).Some?
    ensures var (m', prp1, prp2, ps) := BuildList(m, r, c.size(r)).value;
      && Holding(c, m', submitted, log, k) && Described(c, m', prp1, prp2, r)
      && ps == ListPages(m'.live, r) && m'.bufs == m.bufs
      && (forall n: nat :: n != r ==> ListPages(m'.live, n) == ListPages(m.live, n))
      && ListsAdd(m, m', r)
  {
    hide GoodConfig, Partition, Processed;
    var len := c.size(r);
    SizeFits(c, r);
    BufferAligned(c, m, submitted, log, k, r);
    if len <= 2 * PAGE {
      Prp.ShortRoundTrip(false, m.words, [], m.bufs[r], len);
    } else {
      ListHolding(c, m, r, submitted, log, k);
      PartitionCanonical(c, m, submitted, log, k);
      ListDescribed(c, m, r);
    }
  }

  lemma ListHolding(c: Config, m: Mem, r: nat, submitted: nat, log: seq<nat>, k: nat)
    requires Holding(c, m, submitted, log, k) && ListOf(r) !in m.live && r in m.bufs
    requires m.bufs[r] % PAGE == 0 && c.size(r) > 2 * PAGE && BuildList(m, r, c.size(r)).Some?
    ensures Holding(c, BuildList(m, r, c.size(r)).value.0, submitted, log, k)
  {
    hide Partition, Processed, Prp.Setup;
    PartitionCanonical(c, m, submitted, log, k);
    AllocateKeeps(c.lo, c.hi, m.holes, m.live, PAGE, ListOf(r));
    var m' := BuildList(m, r, c.size(r)).value.0;
    forall n: nat ensures Buffered(c, m', n) <==> Buffered(c, m, n) { }
  }

  lemma PartitionCanonical(c: Config, m: Mem, submitted: nat, log: seq<nat>, k: nat)
    requires Holding(c, m, submitted, log, k)
    ensures Partition(c.lo, c.hi, m.holes, m.live) && PageHoles(m.holes)
    ensures FitIndex(m.holes, PAGE, PAGE) < |m.holes| ==>
      var h := m.holes[FitIndex(m.holes, PAGE, PAGE)];
      AllocAddr(h, PAGE) == h.base && h.base % PAGE == 0
  {
    if FitIndex(m.holes, PAGE, PAGE) < |m.holes| { PageOfHole(m.holes, FitIndex(m.holes, PAGE, PAGE)); }
  }

  lemma ListDescribed(c: Config, m: Mem, r: nat)
    requires PageHoles(m.holes) && r in m.bufs && m.bufs[r] % PAGE == 0
    requires c.size(r) > 2 * PAGE && Prp.Entries(c.size(r) - PAGE) <= Prp.PER_PAGE
    requires BuildList(m, r, c.size(r)).Some? && ListOf(r) !in m.live
    ensures var (m', prp1, prp2, ps) := BuildList(m, r, c.size(r)).value;
      && Described(c, m', prp1, prp2, r)
      && ps == ListPages(m'.live, r) && m'.bufs == m.bufs
      && (forall n: nat :: n != r ==> ListPages(m'.live, n) == ListPages(m.live, n))
      && ListsAdd(m, m', r)
  {
    hide Prp.Setup, Prp.Decode, Prp.DecodesTo;
    var k := FitIndex(m.holes, PAGE, PAGE);
    PageOfHole(m.holes, k);
    var p := AllocAddr(m.holes[k], PAGE);
    assert Prp.Pages([p]);
    Prp.OnePageRoundTrip(m.words, [p], m.bufs[r], c.size(r));
    SetupFields(m.words, p, m.bufs[r], c.size(r));
  }

  lemma SetupFields(w: Prp.Words, p: nat, buf: nat, len: nat)
    requires buf % PAGE + len > 2 * PAGE && Prp.Setup(false, w, [p], buf, len).Some?
    ensures var b := Prp.Setup(false, w, [p], buf, len).value;
      b.0 == buf && b.1 == p
      && (Prp.RoundTrips(false, w, [p], buf, len) ==> Prp.DecodesTo(Prp.Decode(b.2, b.0, b.1, len), buf, len))
  {
  }

  lemma PageOfHole(hs: seq<Hole>, k: nat)
    requires k < |hs| && PageHoles(hs)
    ensures AllocAddr(hs[k], PAGE) == hs[k].base && hs[k].base % PAGE == 0
  {
    PagePad(hs[k].base);
  }

  lemma {:induction false} DescribedFrame(c: Config, m: Mem, m': Mem, r: nat, n: nat, prp1: nat, prp2: nat)
    requires GoodConfig(c) && Described(c, m, prp1, prp2, n) && n != r
    requires ListOf(r) !in m.live && r in m.bufs && m.bufs[r] % PAGE == 0
    requires BuildList(m, r, c.size(r)).Some? && m' == BuildList(m, r, c.size(r)).value.0
    requires Blocks(c.lo, c.hi, m'.live) && PageHoles(m.holes)
    ensures Described(c, m', prp1, prp2, n)
  {
    SizeFits(c, r);
    SizeFits(c, n);
    if c.size(r) > 2 * PAGE {
      var k := FitIndex(m.holes, PAGE, PAGE);
      var p := AllocAddr(m.holes[k], PAGE);
      PageOfHole(m.holes, k);
      Prp.OnePageFrame(m.words, p, m.bufs[r], c.size(r));
      if c.size(n) > 2 * PAGE {
        assert Disjoint(m'.live[ListOf(n)], m'.live[ListOf(r)]);
      }
      Prp.DecodeFrame(m.words, m'.words, prp1, prp2, c.size(n));
    }
  }

  /** The command's entry gets the pages of its list. */
  lemma {:induction false} TableBuilds(c: Config, cmds: CommandMap, live: map<Owner, Block>, live': map<Owner, Block>,
                                       issued: nat, posted: seq<Sqe>, k: nat, r: nat)
    requires Table(c, cmds, live, issued, posted, k) && Alive(issued, posted, k, r) && ListOf(r) !in live
    requires forall n: nat :: n != r ==> ListPages(live', n) == ListPages(live, n)
    requires forall n: nat :: ListOf(n) in live' ==> ListOf(n) in live || n == r
    ensures IdOf(c, r) in cmds
    ensures var cmd := cmds[IdOf(c, r)];
      Table(c, cmds[IdOf(c, r) := cmd.(prpLists := cmd.prpLists + ListPages(live', r))], live', issued, posted, k)
  {
    assert Listed(c, cmds, live, r);
    var cmd := cmds[IdOf(c, r)];
    assert cmd.prpLists + ListPages(live', r) == ListPages(live', r);
    var cmds' := cmds[IdOf(c, r) := cmd.(prpLists := cmd.prpLists + ListPages(live', r))];
    forall n: nat | Alive(issued, posted, k, n) ensures Listed(c, cmds', live', n) {
      assert Listed(c, cmds, live, n);
    }
  }

  lemma {:induction false} BuildDescribing(c: Config, s: State, m': Mem, prp1: nat, prp2: nat)
    requires GoodConfig(c) && Groups(c, s) && s.sub.Build? && s.sub.r in s.mem.bufs && s.mem.bufs[s.sub.r] % PAGE == 0
    requires ListOf(s.sub.r) !in s.mem.live
    requires BuildList(s.mem, s.sub.r, c.size(s.sub.r)).Some?
    requires m' == BuildList(s.mem, s.sub.r, c.size(s.sub.r)).value.0
    requires Holding(c, m', s.eng.submitted, s.log, s.eng.completed) && Described(c, m', prp1, prp2, s.sub.r)
    requires ListsAdd(s.mem, m', s.sub.r)
    ensures Describing(c, m', s.h, Enqueue(s.sub.r, s.sub.id, prp1, prp2), s.log)
  {
    hide GoodConfig, Pacing, Serving, Interrupting, Delivery, Table, Described, Related, BuildList;
    var r := s.sub.r;
    forall n | 0 <= n < |s.h.submitted| && !Processed(s.log, |s.log|, n)
      ensures Described(c, m', s.h.submitted[n].prp1, s.h.submitted[n].prp2, n)
    {
      assert Described(c, s.mem, s.h.submitted[n].prp1, s.h.submitted[n].prp2, n);
      DescribedFrame(c, s.mem, m', r, n, s.h.submitted[n].prp1, s.h.submitted[n].prp2);
    }
  }

  /** Facts about the request in setup_buffer. */
  lemma BuildReady(c: Config, s: State)
    requires GoodConfig(c) && Groups(c, s) && s.sub.Build?
    ensures var r := s.sub.r;
      && r == |s.h.submitted| < s.eng.submitted && Issued(s.h, s.sub) == r + 1 && s.sub.id == IdOf(c, r)
      && ListOf(r) !in s.mem.live && !Processed(s.log, s.eng.completed, r)
      && r in s.mem.bufs && s.mem.bufs[r] % PAGE == 0
      && Alive(r + 1, s.h.posted, ReleasedN(s.h, s.irq), r)
  {
    hide Pacing, Interrupting, Table, Described, Related, Delivery;
    StagesOrdered(c, s);
    LogBelow(c, s, s.sub.r);
    PostedBelow(c, s);
    BufferAligned(c, s.mem, s.eng.submitted, s.log, s.eng.completed, s.sub.r);
  }

  lemma BufferAligned(c: Config, m: Mem, submitted: nat, log: seq<nat>, k: nat, r: nat)
    requires Holding(c, m, submitted, log, k) && r < submitted && !Processed(log, k, r)
    ensures r in m.bufs && m.bufs[r] % PAGE == 0
  {
    assert Buffered(c, m, r);
    assert m.live[Data(r)].PageBlock();
  }

  lemma {:induction false} BuildPrpKeeps(c: Config, s: State)
    requires GoodConfig(c) && Groups(c, s) && s.status == Running && SubmitStep(c, s, BuildPrp).Some?
    ensures Inv(c, SubmitStep(c, s, BuildPrp).value)
  {
    hide Serving, Interrupting, Delivery, Holding, Describing, GoodConfig, Related, Described, BuildList, Listed, Alive, Table, Numbered;
    var s' := SubmitStep(c, s, BuildPrp).value;
    if s'.status == Running {
      BuildReady(c, s);
      var r := s.sub.r;
      var (m', prp1, prp2, ps) := BuildList(s.mem, r, c.size(r)).value;
      BuildListMemory(c, s.mem, r, s.eng.submitted, s.log, s.eng.completed);
      BuildDescribing(c, s, m', prp1, prp2);
      TableBuilds(c, s.cmds, s.mem.live, m'.live, r + 1, s.h.posted, ReleasedN(s.h, s.irq), r);
    }
  }

  // ---- the submission queue ----

  lemma {:induction false} EnqueueCmdKeeps(c: Config, s: State)
    requires GoodConfig(c) && Groups(c, s) && s.status == Running && SubmitStep(c, s, EnqueueCmd).Some?
    requires Unfetched(s.h) <= c.depth - 2
    ensures Inv(c, SubmitStep(c, s, EnqueueCmd).value)
  {
    hide Holding, Table, CqRelated, SqRelated, Describing, Serving, GoodConfig, Consecutive;
    var s' := SubmitStep(c, s, EnqueueCmd).value;
    var sqe := Sqe(s.sub.id, s.sub.prp1, s.sub.prp2, s.sub.r);
    StagesOrdered(c, s);
    SubmitKeeps(s.q, s.h, sqe);
    EntriesGrow(c, s.h, sqe, s.dev.held);
    DescribingEnqueued(c, s.mem, s.h, s.sub, s.log, sqe);
  }

  /** The queue has room for the command about to be written. */
  lemma {:induction false} RoomInQueue(c: Config, s: State)
    requires QueueRoom(c) && Groups(c, s)
    ensures s.sub.Enqueue? ==> Unfetched(s.h) <= c.depth - 2
  {
    hide Holding, Table, Related, Describing, Serving, Interrupting;
    CountsBounded(c, s);
    StagesOrdered(c, s);
  }

  lemma EntriesGrow(c: Config, h: History, sqe: Sqe, held: set<Sqe>)
    requires Serving(h, held) && h.fetched <= |h.submitted|
    requires forall i :: 0 <= i < |h.submitted| ==> Numbered(c, h, i)
    requires sqe.tag == |h.submitted| && sqe.cid == IdOf(c, sqe.tag)
    ensures var h' := h.(submitted := h.submitted + [sqe]);
      Serving(h', held) && forall i :: 0 <= i < |h'.submitted| ==> Numbered(c, h', i)
  {
    var h' := h.(submitted := h.submitted + [sqe]);
    forall i | 0 <= i < |h'.submitted| ensures Numbered(c, h', i) {
      if i < |h.submitted| { assert Numbered(c, h, i); }
    }
    forall x | FetchedEntry(h, x) ensures FetchedEntry(h', x) { }
  }

  lemma DescribingEnqueued(c: Config, m: Mem, h: History, sub: Sub, log: seq<nat>, sqe: Sqe)
    requires Describing(c, m, h, sub, log) && sub.Enqueue? && sub.r == |h.submitted|
    requires sqe.prp1 == sub.prp1 && sqe.prp2 == sub.prp2
    ensures Describing(c, m, h.(submitted := h.submitted + [sqe]), RingSq, log)
  {
    var h' := h.(submitted := h.submitted + [sqe]);
    forall n | 0 <= n < |h'.submitted| && !Processed(log, |log|, n)
      ensures Described(c, m, h'.submitted[n].prp1, h'.submitted[n].prp2, n)
    {
      if n < |h.submitted| {
        assert Described(c, m, h.submitted[n].prp1, h.submitted[n].prp2, n);
      }
    }
  }

  lemma {:induction false} RingSqDbKeeps(c: Config, s: State)
    requires GoodConfig(c) && Groups(c, s) && s.status == Running && SubmitStep(c, s, RingSqDb).Some?
    ensures Inv(c, SubmitStep(c, s, RingSqDb).value)
  {
    hide Holding, Table, CqRelated, SqRelated, Described, Processed, GoodConfig;
    var s' := SubmitStep(c, s, RingSqDb).value;
    DoorbellKeeps(s.q, s.h, true);
    SameEntries(c, s.h, s'.h, s.dev.held);
    DescribingRung(c, s.mem, s.h, s'.h, NoSub, s.log);
  }

  lemma SameEntries(c: Config, h: History, h': History, held: set<Sqe>)
    requires Serving(h, held) && h'.submitted == h.submitted && h'.fetched == h.fetched && h'.posted == h.posted
    ensures Serving(h', held)
    ensures (forall i :: 0 <= i < |h.submitted| ==> Numbered(c, h, i)) ==>
            forall i :: 0 <= i < |h'.submitted| ==> Numbered(c, h', i)
  {
    forall x | FetchedEntry(h, x) ensures FetchedEntry(h', x) { }
    forall i | 0 <= i < |h'.submitted| && Numbered(c, h, i) ensures Numbered(c, h', i) { }
  }

  lemma DescribingRung(c: Config, m: Mem, h: History, h': History, sub: Sub, log: seq<nat>)
    requires h'.submitted == h.submitted
    ensures Describing(c, m, h, sub, log) ==> Describing(c, m, h', sub, log)
    ensures Describing(c, m, h, RingSq, log) ==> Describing(c, m, h', NoSub, log)
  {
  }

  // ---- the device ----

  lemma {:induction false} DevFetchKeeps(c: Config, s: State)
    requires GoodConfig(c) && Groups(c, s) && s.status == Running && DeviceStep(s, DevFetch).Some?
    ensures Inv(c, DeviceStep(s, DevFetch).value)
  {
    hide Holding, Table, Related, Describing, GoodConfig, Pacing, Serving, FetchedEntry;
    var s' := DeviceStep(s, DevFetch).value;
    FetchKeeps(s.q, s.h);
    StagesOrdered(c, s);
    assert Numbered(c, s.h, s.h.fetched);
    FetchServing(s.h, s.dev.held, s.h.submitted[s.h.fetched]);
    SameNumbers(c, s.h, s'.h);
    DescribingRung(c, s.mem, s.h, s'.h, s.sub, s.log);
  }

  lemma SameNumbers(c: Config, h: History, h': History)
    requires h'.submitted == h.submitted && forall i :: 0 <= i < |h.submitted| ==> Numbered(c, h, i)
    ensures forall i :: 0 <= i < |h'.submitted| ==> Numbered(c, h', i)
  {
    forall i | 0 <= i < |h'.submitted| ensures Numbered(c, h', i) { assert Numbered(c, h, i); }
  }

  lemma FetchServing(h: History, held: set<Sqe>, x: Sqe)
    requires Serving(h, held) && h.fetched < |h.submitted| && x == h.submitted[h.fetched] && x.tag == h.fetched
    ensures Serving(h.(fetched := h.fetched + 1), held + {x})
  {
    var h' := h.(fetched := h.fetched + 1);
    forall y | FetchedEntry(h, y) ensures FetchedEntry(h', y) { }
    assert x !in held by { assert x in held ==> FetchedEntry(h, x); }
    assert x !in h.posted;
  }

  lemma {:induction false} DevPostKeeps(c: Config, s: State, x: Sqe)
    requires GoodConfig(c) && Groups(c, s) && s.status == Running && DeviceStep(s, DevPost(x)).Some?
    ensures Inv(c, DeviceStep(s, DevPost(x)).value)
  {
    hide Holding, CqRelated, SqRelated, Described, GoodConfig, Pacing, Table, Serving, Processed;
    var s' := DeviceStep(s, DevPost(x)).value;
    PostKeeps(s.q, s.h, x);
    PostServing(s.h, s.dev.held, x);
    SameNumbers(c, s.h, s'.h);
    StagesOrdered(c, s);
    TablePosted(c, s.cmds, s.mem.live, Issued(s.h, s.sub), s.h.posted, x, ReleasedN(s.h, s.irq));
  }

  lemma PostServing(h: History, held: set<Sqe>, x: Sqe)
    requires Serving(h, held) && x in held
    ensures Serving(h.(posted := h.posted + [x]), held - {x})
  {
    var h' := h.(posted := h.posted + [x]);
    forall y | FetchedEntry(h, y) ensures FetchedEntry(h', y) { }
    forall j | 0 <= j < |h.posted| ensures h.posted[j].tag != x.tag {
      assert FetchedEntry(h, h.posted[j]) && FetchedEntry(h, x);
    }
  }

  lemma TablePosted(c: Config, cmds: CommandMap, live: map<Owner, Block>, issued: nat, posted: seq<Sqe>, x: Sqe, k: nat)
    requires Table(c, cmds, live, issued, posted, k) && k <= |posted|
    ensures Table(c, cmds, live, issued, posted + [x], k)
  {
    forall n: nat ensures Gone(posted + [x], k, n) <==> Gone(posted, k, n) {
      if Gone(posted, k, n) {
        var j :| 0 <= j < k && j < |posted| && posted[j].tag == n;
        assert (posted + [x])[j].tag == n;
      }
    }
    forall n: nat | Alive(issued, posted + [x], k, n) ensures Listed(c, cmds, live, n) {
      assert Alive(issued, posted, k, n);
    }
  }

  lemma {:induction false} DevIrqKeeps(c: Config, s: State)
    requires GoodConfig(c) && Groups(c, s) && s.status == Running && DeviceStep(s, DevIrq).Some?
    ensures Inv(c, DeviceStep(s, DevIrq).value)
  {
    hide Holding, Table, Describing, Related, GoodConfig, Pacing, Serving;
  }

  // ---- the interrupt thread ----

  lemma {:induction false} IrqWakeKeeps(c: Config, s: State)
    requires GoodConfig(c) && Groups(c, s) && s.status == Running && IrqStep(s, IrqWake).Some?
    ensures Inv(c, IrqStep(s, IrqWake).value)
  {
    hide Holding, Table, Describing, Related, GoodConfig, Pacing, Serving;
  }

  lemma {:induction false} IrqCheckKeeps(c: Config, s: State)
    requires GoodConfig(c) && Groups(c, s) && s.status == Running && IrqStep(s, IrqCheck).Some?
    ensures Inv(c, IrqStep(s, IrqCheck).value)
  {
    hide Holding, Table, Describing, SqRelated, GoodConfig, Pacing, Serving, CqSlot, CqBlank;
    PendingExactly(s.q, s.h);
  }

  /** The entry being handled belongs to a live command, so it is found and has a callback. */
  lemma {:induction false} HandledIsListed(c: Config, s: State)
    requires Groups(c, s) && (s.irq.Handle? || s.irq.Release?)
    ensures var x := s.irq.c;
      && x.cid == IdOf(c, x.tag) && Alive(Issued(s.h, s.sub), s.h.posted, s.h.consumed, x.tag)
      && Listed(c, s.cmds, s.mem.live, x.tag)
  {
    hide Holding, Describing, Related, Pacing, Delivery;
    var x := s.irq.c;
    assert FetchedEntry(s.h, x);
    assert Numbered(c, s.h, x.tag);
    assert Alive(Issued(s.h, s.sub), s.h.posted, s.h.consumed, x.tag);
  }

  lemma {:induction false} IrqHandleKeeps(c: Config, s: State)
    requires GoodConfig(c) && Groups(c, s) && s.status == Running && IrqStep(s, IrqHandle).Some?
    ensures Inv(c, IrqStep(s, IrqHandle).value)
  {
    hide Table, Related, GoodConfig, Pacing, Serving, Described, Partition, Buffered;
    HandledIsListed(c, s);
    var s' := IrqStep(s, IrqHandle).value;
    var r := s.irq.c.tag;
    assert s' == s.(done := s.done + [r], log := s.log + [r], irq := Release(s.irq.c));
    LogGrows(s.log, r);
    StagesOrdered(c, s);
    HandleDelivery(s.h, s.irq.c, s.log, s.done, s.eng);
    HoldingLogged(c, s.mem, s.eng.submitted, s.log, r, s.eng.completed);
    DescribingLogged(c, s.mem, s.h, s.sub, s.log, r);
  }

  lemma LogGrows(log: seq<nat>, r: nat)
    ensures forall k: nat, x :: k <= |log| ==> (Processed(log + [r], k, x) <==> Processed(log, k, x))
    ensures forall x :: Processed(log, |log|, x) ==> Processed(log + [r], |log| + 1, x)
  {
    var log' := log + [r];
    forall k: nat, x | k <= |log| ensures Processed(log', k, x) <==> Processed(log, k, x) {
      if Processed(log, k, x) {
        var j :| 0 <= j < k && j < |log| && log[j] == x;
        assert log'[j] == x;
      }
    }
    forall x | Processed(log, |log|, x) ensures Processed(log', |log| + 1, x) {
      var j :| 0 <= j < |log| && log[j] == x;
      assert log'[j] == x;
    }
  }

  lemma HandleDelivery(h: History, x: Sqe, log: seq<nat>, done: seq<nat>, e: Engine)
    requires Delivery(h, Handle(x), log, done, e) && h.consumed < |h.posted| && x == h.posted[h.consumed]
    ensures Delivery(h, Release(x), log + [x.tag], done + [x.tag], e)
  {
    var log' := log + [x.tag];
    assert log'[e.completed..e.completed + |e.batch|] == log[e.completed..e.completed + |e.batch|];
    assert log'[e.completed + |e.batch|..] == log[e.completed + |e.batch|..] + [x.tag];
  }

  lemma HoldingLogged(c: Config, m: Mem, submitted: nat, log: seq<nat>, r: nat, k: nat)
    requires Holding(c, m, submitted, log, k) && k <= |log|
    ensures Holding(c, m, submitted, log + [r], k)
  {
    hide Partition, Buffered, Processed;
    LogGrows(log, r);
  }

  lemma DescribingLogged(c: Config, m: Mem, h: History, sub: Sub, log: seq<nat>, r: nat)
    requires Describing(c, m, h, sub, log)
    ensures Describing(c, m, h, sub, log + [r])
  {
    hide Described, Processed;
    LogGrows(log, r);
  }

  // ---- erasing a command ----

  lemma GoneStep(posted: seq<Sqe>, k: nat)
    requires k < |posted|
    ensures forall n :: Gone(posted, k + 1, n) <==> Gone(posted, k, n) || n == posted[k].tag
  {
    forall n ensures Gone(posted, k + 1, n) <==> Gone(posted, k, n) || n == posted[k].tag {
      if Gone(posted, k, n) {
        var j :| 0 <= j < k && j < |posted| && posted[j].tag == n;
        assert 0 <= j < k + 1 && posted[j].tag == n;
      }
    }
  }

  lemma {:induction false} TableErases(c: Config, cmds: CommandMap, live: map<Owner, Block>, issued: nat, posted: seq<Sqe>, k: nat)
    requires Table(c, cmds, live, issued, posted, k) && k < |posted| && Alive(issued, posted, k, posted[k].tag)
    ensures var n := posted[k].tag; Table(c, cmds - {IdOf(c, n)}, live - {ListOf(n)}, issued, posted, k + 1)
  {
    var x := posted[k].tag;
    var cmds', live' := cmds - {IdOf(c, x)}, live - {ListOf(x)};
    GoneStep(posted, k);
    assert Listed(c, cmds, live, x);
    forall n: nat | Alive(issued, posted, k + 1, n) ensures Listed(c, cmds', live', n) {
      assert Alive(issued, posted, k, n);
      assert Listed(c, cmds, live, n);
    }
    forall id | id in cmds'
      ensures cmds'[id].callback.Some? && Alive(issued, posted, k + 1, cmds'[id].callback.value)
              && IdOf(c, cmds'[id].callback.value) == id
    {
      assert id in cmds;
    }
    forall n: nat | ListOf(n) in live' ensures Alive(issued, posted, k + 1, n) {
      assert ListOf(n) in live;
    }
  }

  lemma {:induction false} GivePagesKeeps(c: Config, m: Mem, submitted: nat, log: seq<nat>, k: nat, n: nat)
    requires Holding(c, m, submitted, log, k) && |m.holes| < SlotTable.NR_HOLES
    requires ListOf(n) in m.live ==> m.live[ListOf(n)].len == PAGE
    ensures GivePages(m.holes, ListPages(m.live, n)).Some?
    ensures Holding(c, m.(holes := GivePages(m.holes, ListPages(m.live, n)).value, live := m.live - {ListOf(n)}),
                    submitted, log, k)
  {
    hide Buffered, Processed, Partition, HoleList.Release;
    if ListOf(n) in m.live {
      FreeKeeps(c.lo, c.hi, m.holes, m.live, ListOf(n));
      var p := m.live[ListOf(n)].addr;
      assert [p][1..] == [];
      assert GivePages(m.holes, [p]) == Some(HoleList.Release(m.holes, p, PAGE));
    } else {
      assert m.live - {ListOf(n)} == m.live;
    }
    BufferedSame(c, m, m.(holes := GivePages(m.holes, ListPages(m.live, n)).value, live := m.live - {ListOf(n)}), n);
  }

  lemma BufferedSame(c: Config, m: Mem, m': Mem, n: nat)
    requires m'.live == m.live - {ListOf(n)} && m'.bufs == m.bufs
    ensures forall r: nat :: Buffered(c, m', r) <==> Buffered(c, m, r)
  {
  }

  /** A list page is one page long. */
  ghost predicate ListSized(live: map<Owner, Block>, n: nat) {
    ListOf(n) in live ==> live[ListOf(n)].len == PAGE
  }

  lemma {:induction false} DescribingErased(c: Config, m: Mem, m': Mem, h: History, sub: Sub, log: seq<nat>, n: nat)
    requires Describing(c, m, h, sub, log) && Processed(log, |log|, n) && (sub.Enqueue? ==> sub.r != n)
    requires m'.live == m.live - {ListOf(n)} && m'.bufs == m.bufs && m'.words == m.words
    ensures Describing(c, m', h, sub, log)
  {
    forall i | 0 <= i < |h.submitted| && !Processed(log, |log|, i)
      ensures Described(c, m', h.submitted[i].prp1, h.submitted[i].prp2, i)
    {
      assert Described(c, m, h.submitted[i].prp1, h.submitted[i].prp2, i);
    }
  }

  lemma {:induction false} IrqReleaseKeeps(c: Config, s: State)
    requires GoodConfig(c) && Groups(c, s) && s.status == Running && IrqStep(s, IrqRelease).Some?
    ensures Inv(c, IrqStep(s, IrqRelease).value)
  {
    hide Table, Related, GoodConfig, Pacing, Serving, Described, Holding, Describing, Alive;
    HandledIsListed(c, s);
    RoomInTable(c, s);
    StagesOrdered(c, s);
    var n := s.irq.c.tag;
    ReleasedRequest(c, s);
    GivePagesKeeps(c, s.mem, s.eng.submitted, s.log, s.eng.completed, n);
    TableErases(c, s.cmds, s.mem.live, Issued(s.h, s.sub), s.h.posted, s.h.consumed);
    var s' := IrqStep(s, IrqRelease).value;
    DescribingErased(c, s.mem, s'.mem, s.h, s.sub, s.log, n);
  }

  lemma ReleasedRequest(c: Config, s: State)
    requires GoodConfig(c) && Groups(c, s) && s.irq.Release?
    ensures Processed(s.log, |s.log|, s.irq.c.tag) && (s.sub.Enqueue? ==> s.sub.r != s.irq.c.tag)
    ensures ListSized(s.mem.live, s.irq.c.tag)
  {
    hide Table, Related, Pacing, Holding;
    assert s.log[s.h.consumed] == s.irq.c.tag;
    PostedBelow(c, s);
  }

  lemma {:induction false} IrqAdvanceKeeps(c: Config, s: State)
    requires GoodConfig(c) && Groups(c, s) && s.status == Running && IrqStep(s, IrqAdvance).Some?
    ensures Inv(c, IrqStep(s, IrqAdvance).value)
  {
    hide Table, Related, Pacing, Holding, Described;
    var s' := IrqStep(s, IrqAdvance).value;
    ConsumeKeeps(s.q, s.h);
    ConsumedWithin(s.q, s.h);
    SameEntries(c, s.h, s'.h, s.dev.held);
  }

  lemma {:induction false} IrqRingKeeps(c: Config, s: State)
    requires GoodConfig(c) && Groups(c, s) && s.status == Running && IrqStep(s, IrqRing).Some?
    ensures Inv(c, IrqStep(s, IrqRing).value)
    ensures s.h.rung < IrqStep(s, IrqRing).value.h.rung == s.h.consumed
  {
    hide Table, Related, Pacing, Holding, Described, GoodConfig;
    var s' := IrqStep(s, IrqRing).value;
    RingKeeps(s.q, s.h);
    SameEntries(c, s.h, s'.h, s.dev.held);
  }

  // ---- any step, any run ----

  /** Every step keeps the invariant, provided a command about to be registered gets a free id
      and one about to be written finds room in the queue. */
  lemma {:induction false} StepKeepsBut(c: Config, s: State, a: Action)
    requires GoodConfig(c) && Inv(c, s) && Apply(c, s, a).Some? && (a == SetupCmd ==> FreshId(s))
    requires a == EnqueueCmd ==> Unfetched(s.h) <= c.depth - 2
    ensures Inv(c, Apply(c, s, a).value)
  {
    hide GoodConfig, Groups, Inv, FreshId, ThreadStep, SubmitStep, DeviceStep, IrqStep;
    InvRunning(c, s);
    match a
    case Fill => FillKeeps(c, s);
    case FillDone => FillDoneKeeps(c, s);
    case Collect => CollectKeeps(c, s);
    case Process => ProcessKeeps(c, s);
    case Drain => DrainKeeps(c, s);
    case OnCompleted => OnCompletedKeeps(c, s);
    case SetupCmd => SetupCmdKeeps(c, s);
    case BuildPrp => BuildPrpKeeps(c, s);
    case EnqueueCmd => EnqueueCmdKeeps(c, s);
    case RingSqDb => RingSqDbKeeps(c, s);
    case DevFetch => DevFetchKeeps(c, s);
    case DevPost(x) => DevPostKeeps(c, s, x);
    case DevIrq => DevIrqKeeps(c, s);
    case IrqWake => IrqWakeKeeps(c, s);
    case IrqCheck => IrqCheckKeeps(c, s);
    case IrqHandle => IrqHandleKeeps(c, s);
    case IrqRelease => IrqReleaseKeeps(c, s);
    case IrqAdvance => IrqAdvanceKeeps(c, s);
    case IrqRing => IrqRingKeeps(c, s);
  }

  /** With room in the queue for all that can be in flight it always does. */
  lemma {:induction false} StepKeeps(c: Config, s: State, a: Action)
    requires GoodConfig(c) && QueueRoom(c) && Inv(c, s) && Apply(c, s, a).Some? && (a == SetupCmd ==> FreshId(s))
    ensures Inv(c, Apply(c, s, a).value)
  {
    hide GoodConfig, QueueRoom, Groups, Inv, FreshId, ThreadStep, DeviceStep, IrqStep;
    InvRunning(c, s);
    RoomInQueue(c, s);
    StepKeepsBut(c, s, a);
  }

  lemma InvRunning(c: Config, s: State)
    requires Inv(c, s) && s.status == Running
    ensures Groups(c, s)
  {
  }
}
