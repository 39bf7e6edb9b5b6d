/** The paced request engine in the source's own form: IOThread with the closed loop of
    IOThreadSynthetic, on a shared allocator.  Its methods compute the thread's steps of
    FlowModel; the flow's invariants then show that the loop ends with every request
    completed once, whatever order the device completes them in. */
module IoThread {
  import opened Wrappers
  import opened HoleList
  import opened Memory
  import opened Arena
  import opened FlowModel
  import opened FlowInvariant
  import FlowKeeps
  import FlowTheorems
  import FlowRoom
  import Prp
  import SlotTable

  /** What generate_request draws: direction, position, and size in bytes. */
  datatype Generated = Generated(doWrite: bool, pos: nat, size: nat)

  /** A request; `n` counts submissions. */
  datatype IORequest = IORequest(n: nat, doWrite: bool, pos: nat, buf: nat, size: nat)

  /** The statistics of process_completed_request. */
  datatype Tally = Tally(nrRead: nat, nrWrite: nat, bytes: nat, bytesRead: nat, bytesWrite: nat)

  function Charge(t: Tally, r: IORequest): Tally {
    if r.doWrite then t.(bytes := t.bytes + r.size, nrWrite := t.nrWrite + 1, bytesWrite := t.bytesWrite + r.size)
    else t.(bytes := t.bytes + r.size, nrRead := t.nrRead + 1, bytesRead := t.bytesRead + r.size)
  }

  /** The thread at one moment.  `outstanding` is at the driver, `log` lists all completions
      so far, and `fill`, `running` and `post` say where run_impl is, as in Engine. */
  datatype View = View(
    submitted: nat, completed: nat, inflight: nat, waiting: seq<IORequest>, outstanding: seq<IORequest>,
    done: seq<IORequest>, batch: seq<IORequest>, log: seq<nat>, tally: Tally,
    fill: nat, running: bool, post: bool, mem: Mem)

  ghost function Nums(rs: seq<IORequest>): (ns: seq<nat>)
    ensures |ns| == |rs| && forall i :: 0 <= i < |rs| ==> ns[i] == rs[i].n
  {
    seq(|rs|, i requires 0 <= i < |rs| => rs[i].n)
  }

  ghost function EngineOf(v: View): Engine {
    Engine(v.submitted, v.completed, v.inflight, Nums(v.waiting), v.fill, v.running, Nums(v.batch), v.post)
  }

  // ---- what the methods compute ----

  function SubmitView(cap: nat, g: Generated, v: View): Option<View> {
    match TakeBuffer(v.mem, v.submitted, g.size)
    case None => None
    case Some(m) =>
      Some(PlaceView(cap, v.(mem := m), IORequest(v.submitted, g.doWrite, g.pos, m.bufs[v.submitted], g.size)))
  }

  /** A new request goes to the device while fewer than `cap` are in flight, and waits otherwise. */
  function PlaceView(cap: nat, v: View, r: IORequest): View {
    if v.inflight >= cap then v.(submitted := v.submitted + 1, waiting := v.waiting + [r])
    else v.(submitted := v.submitted + 1, inflight := v.inflight + 1, outstanding := v.outstanding + [r])
  }

  function NotifyView(v: View, k: nat): View
    requires k < |v.outstanding|
  {
    var r := v.outstanding[k];
    v.(outstanding := SlotTable.RemoveAt(v.outstanding, k), done := v.done + [r], log := v.log + [r.n])
  }

  function CollectView(v: View): View { v.(batch := v.done, done := []) }

  function AccountView(v: View): Option<View>
    requires v.batch != [] && 0 < v.inflight
  {
    var r := v.batch[0];
    match GiveBuffer(v.mem, r.n, r.size)
    case None => None
    case Some(m) => Some(v.(mem := m, inflight := v.inflight - 1, completed := v.completed + 1,
                            batch := v.batch[1..], post := true, tally := Charge(v.tally, r)))
  }

  function DrainView(cap: nat, v: View): View
    decreases |v.waiting|
  {
    if v.waiting != [] && v.inflight < cap then
      DrainView(cap, v.(waiting := v.waiting[1..], inflight := v.inflight + 1, outstanding := v.outstanding + [v.waiting[0]]))
    else v
  }

  /** on_request_completed. */
  function NextView(c: Config, gen: nat -> Generated, v: View): Option<View> {
    if v.submitted < c.count then SubmitView(c.cap, gen(v.submitted), v.(post := false)) else Some(v.(post := false))
  }

  // ---- what holds of every view ----

  /** s is a permutation of 0..n. */
  ghost predicate Perm(s: seq<nat>, n: nat) {
    |s| == n && (forall i, j :: 0 <= i < j < |s| ==> s[i] != s[j]) && (forall i :: 0 <= i < |s| ==> s[i] < n)
  }

  /** Each request listed has the data generated for its number and its own buffer. */
  ghost predicate Genuine(gen: nat -> Generated, m: Mem, submitted: nat, rs: seq<IORequest>) {
    forall i :: 0 <= i < |rs| ==> rs[i].n < submitted && Own(gen, m, rs[i])
  }

  ghost predicate Own(gen: nat -> Generated, m: Mem, r: IORequest) {
    r.n in m.bufs && r == IORequest(r.n, gen(r.n).doWrite, gen(r.n).pos, m.bufs[r.n], gen(r.n).size)
  }

  ghost predicate AllGenuine(gen: nat -> Generated, v: View) {
    && Genuine(gen, v.mem, v.submitted, v.waiting) && Genuine(gen, v.mem, v.submitted, v.outstanding)
    && Genuine(gen, v.mem, v.submitted, v.done) && Genuine(gen, v.mem, v.submitted, v.batch)
  }

  /** Completions are kept in order, processed, popped, or still queued; with the requests
      outstanding they are all that were dispatched. */
  ghost predicate Places(v: View) {
    && Perm(v.log + Nums(v.outstanding), |v.log| + |v.outstanding|)
    && |v.log| == v.completed + |v.batch| + |v.done|
    && Nums(v.batch) == v.log[v.completed..v.completed + |v.batch|]
    && Nums(v.done) == v.log[v.completed + |v.batch|..]
  }

  ghost function Bytes(gen: nat -> Generated, ns: seq<nat>, writes: bool): nat
    decreases |ns|
  {
    if ns == [] then 0
    else
      var k := |ns| - 1;
      Bytes(gen, ns[..k], writes) + if gen(ns[k]).doWrite == writes then gen(ns[k]).size else 0
  }

  ghost function Count(gen: nat -> Generated, ns: seq<nat>, writes: bool): nat
    decreases |ns|
  {
    if ns == [] then 0
    else Count(gen, ns[..|ns| - 1], writes) + if gen(ns[|ns| - 1]).doWrite == writes then 1 else 0
  }

  /** The statistics are those of the requests processed. */
  ghost predicate Tallied(gen: nat -> Generated, t: Tally, ns: seq<nat>) {
    && t.nrRead == Count(gen, ns, false) && t.nrWrite == Count(gen, ns, true)
    && t.bytesRead == Bytes(gen, ns, false) && t.bytesWrite == Bytes(gen, ns, true)
    && t.bytes == t.bytesRead + t.bytesWrite
  }

  ghost predicate Sizes(c: Config, gen: nat -> Generated) {
    forall n :: gen(n).size == c.size(n)
  }

  /** The driver's list pages are not part of this view. */
  ghost predicate NoLists(m: Mem) {
    forall n: nat :: ListOf(n) !in m.live
  }

  ghost predicate Sound(c: Config, gen: nat -> Generated, v: View) {
    && Sizes(c, gen) && NoLists(v.mem)
    && Places(v) && AllGenuine(gen, v)
    && Pacing(c, EngineOf(v), |v.log| + |v.outstanding|)
    && Holding(c, v.mem, v.submitted, v.log, v.completed)
    && Tallied(gen, v.tally, v.log[..v.completed])
  }

  // ---- each of them keeps it ----

  lemma {:induction false} InitSound(c: Config, gen: nat -> Generated, v: View)
    requires GoodConfig(c) && forall n :: gen(n).size == c.size(n)
    requires v == View(0, 0, 0, [], [], [], [], [], Tally(0, 0, 0, 0, 0), 0, false, false, Mem(c.holes, c.fixed, map[], v.mem.words))
    ensures Sound(c, gen, v)
  {
    hide GoodConfig, NoLists, Holding;
    InitHolding(c, v.mem);
  }

  lemma InitHolding(c: Config, m: Mem)
    requires GoodConfig(c) && m.holes == c.holes && m.live == c.fixed
    ensures NoLists(m) && Holding(c, m, 0, [], 0)
  {
    hide Partition;
    assert forall n: nat :: ListOf(n) !in c.fixed && Data(n) !in c.fixed;
  }

  lemma PermBelow(s: seq<nat>, t: seq<nat>, n: nat)
    requires Perm(s + t, n)
    ensures forall i :: 0 <= i < |s| ==> s[i] < n
    ensures forall i, j :: 0 <= i < j < |s| ==> s[i] != s[j]
  {
    forall i | 0 <= i < |s| ensures s[i] < n { assert (s + t)[i] == s[i]; }
    forall i, j | 0 <= i < j < |s| ensures s[i] != s[j] { assert (s + t)[i] == s[i] && (s + t)[j] == s[j]; }
  }

  lemma PermSnoc(s: seq<nat>, t: seq<nat>, n: nat)
    requires Perm(s + t, n)
    ensures Perm(s + (t + [n]), n + 1)
  {
    assert s + (t + [n]) == (s + t) + [n];
  }

  /** Moving entry k of t to the end of s. */
  lemma PermMove(s: seq<nat>, t: seq<nat>, n: nat, k: nat)
    requires Perm(s + t, n) && k < |t|
    ensures Perm((s + [t[k]]) + SlotTable.RemoveAt(t, k), n)
  {
    var u, u' := s + t, (s + [t[k]]) + SlotTable.RemoveAt(t, k);
    forall i | 0 <= i < n
      ensures u'[i] == u[if i < |s| then i else if i == |s| then |s| + k else if i <= |s| + k then i - 1 else i]
    {
    }
  }

  /** The buffers of the first n requests are where they were. */
  ghost predicate SameBufs(m: Mem, m': Mem, n: nat) {
    forall r: nat :: r < n && r in m.bufs ==> r in m'.bufs && m'.bufs[r] == m.bufs[r]
  }

  lemma GenuineMem(gen: nat -> Generated, m: Mem, m': Mem, n: nat, n': nat, rs: seq<IORequest>)
    requires Genuine(gen, m, n, rs) && SameBufs(m, m', n) && n <= n'
    ensures Genuine(gen, m', n', rs)
  {
    forall i | 0 <= i < |rs| ensures Own(gen, m', rs[i]) { assert Own(gen, m, rs[i]); }
  }

  lemma GenuineSnoc(gen: nat -> Generated, m: Mem, n: nat, rs: seq<IORequest>, r: IORequest)
    requires Genuine(gen, m, n, rs) && r.n < n && Own(gen, m, r)
    ensures Genuine(gen, m, n, rs + [r])
  {
  }

  /** The engine of FlowModel takes the same step. */
  lemma SubmitEngine(cap: nat, g: Generated, v: View)
    requires SubmitView(cap, g, v).Some?
    ensures EngineOf(SubmitView(cap, g, v).value) == Enlist(EngineOf(v), cap)
  {
  }

  /** The two places that submit: the loop that primes the flow, and on_request_completed. */
  ghost predicate MaySubmit(c: Config, v: View, v0: View) {
    && (v.waiting != [] ==> v.inflight >= c.cap)
    && (if v.running then v.post && v.submitted < c.count && v0 == v.(post := false)
        else v.fill < c.avg && v0 == v.(fill := v.fill + 1))
  }

  lemma {:induction false} SubmitSound(c: Config, gen: nat -> Generated, v: View, v0: View)
    requires GoodConfig(c) && Sound(c, gen, v) && MaySubmit(c, v, v0)
    requires SubmitView(c.cap, gen(v.submitted), v0).Some?
    ensures Sound(c, gen, SubmitView(c.cap, gen(v.submitted), v0).value)
  {
    hide GoodConfig, Holding, TakeBuffer, Tallied, Own, AllGenuine, Places, Pacing, MaySubmit, Sizes, EngineOf;
    var g := gen(v.submitted);
    var v' := SubmitView(c.cap, g, v0).value;
    SubmitPaces(c, g, v, v0);
    SubmitMemory(c, gen, v);
    var r := IORequest(v.submitted, g.doWrite, g.pos, v'.mem.bufs[v.submitted], g.size);
    SubmitPlaces(c, v, v', r);
    SubmitGenuine(gen, v, v', r);
  }

  lemma {:induction false} SubmitPaces(c: Config, g: Generated, v: View, v0: View)
    requires MaySubmit(c, v, v0) && Pacing(c, EngineOf(v), |v.log| + |v.outstanding|) && SubmitView(c.cap, g, v0).Some?
    ensures var v' := SubmitView(c.cap, g, v0).value;
      && Pacing(c, EngineOf(v'), |v'.log| + |v'.outstanding|)
      && v0 == v.(fill := v0.fill, post := v0.post)
      && (v.inflight < c.cap ==> v.submitted == |v.log| + |v.outstanding|)
  {
    hide TakeBuffer;
    SubmitEngine(c.cap, g, v0);
    EnlistPaces(c, EngineOf(v0), |v.log| + |v.outstanding|);
  }

  lemma SubmitPlaces(c: Config, v: View, v': View, r: IORequest)
    requires Places(v) && r.n == v.submitted
    requires v'.log == v.log && v'.done == v.done && v'.batch == v.batch && v'.completed == v.completed
    requires v'.outstanding == v.outstanding
      || (v'.outstanding == v.outstanding + [r] && v.submitted == |v.log| + |v.outstanding|)
    ensures Places(v')
  {
    if v'.outstanding != v.outstanding {
      assert Nums(v'.outstanding) == Nums(v.outstanding) + [r.n];
      PermSnoc(v.log, Nums(v.outstanding), |v.log| + |v.outstanding|);
    }
  }

  lemma SubmitGenuine(gen: nat -> Generated, v: View, v': View, r: IORequest)
    requires AllGenuine(gen, v) && SameBufs(v.mem, v'.mem, v.submitted) && r.n == v.submitted && Own(gen, v'.mem, r)
    requires v'.submitted == v.submitted + 1 && v'.done == v.done && v'.batch == v.batch
    requires v'.waiting == v.waiting || v'.waiting == v.waiting + [r]
    requires v'.outstanding == v.outstanding || v'.outstanding == v.outstanding + [r]
    ensures AllGenuine(gen, v')
  {
    hide Own, Genuine;
    GenuineMem(gen, v.mem, v'.mem, v.submitted, v'.submitted, v.waiting);
    GenuineMem(gen, v.mem, v'.mem, v.submitted, v'.submitted, v.outstanding);
    GenuineMem(gen, v.mem, v'.mem, v.submitted, v'.submitted, v.done);
    GenuineMem(gen, v.mem, v'.mem, v.submitted, v'.submitted, v.batch);
    GenuineSnoc(gen, v'.mem, v'.submitted, v.waiting, r);
    GenuineSnoc(gen, v'.mem, v'.submitted, v.outstanding, r);
  }

  lemma SubmitMemory(c: Config, gen: nat -> Generated, v: View)
    requires GoodConfig(c) && Sound(c, gen, v) && TakeBuffer(v.mem, v.submitted, gen(v.submitted).size).Some?
    ensures var m := TakeBuffer(v.mem, v.submitted, gen(v.submitted).size).value; var g := gen(v.submitted);
      && Holding(c, m, v.submitted + 1, v.log, v.completed) && m.words == v.mem.words
      && v.submitted in m.bufs && Own(gen, m, IORequest(v.submitted, g.doWrite, g.pos, m.bufs[v.submitted], g.size))
      && SameBufs(v.mem, m, v.submitted) && NoLists(m)
  {
    hide Pacing, Tallied, AllGenuine, GoodConfig, Holding, TakeBuffer, Perm;
    Unlogged(c, v);
    FlowKeeps.SizeFits(c, v.submitted);
    FlowKeeps.WholePages(c, v.submitted);
    FlowKeeps.TakeBufferKeeps(c, v.mem, v.submitted, v.log, v.completed);
    TakenBuffer(v.mem, v.submitted, gen(v.submitted).size);
  }

  lemma TakenBuffer(m: Mem, r: nat, size: nat)
    requires TakeBuffer(m, r, size).Some?
    ensures r in TakeBuffer(m, r, size).value.bufs && SameBufs(m, TakeBuffer(m, r, size).value, r)
  {
  }

  lemma Unlogged(c: Config, v: View)
    requires Places(v) && Pacing(c, EngineOf(v), |v.log| + |v.outstanding|)
    ensures !Processed(v.log, v.completed, v.submitted)
  {
    PermBelow(v.log, Nums(v.outstanding), |v.log| + |v.outstanding|);
  }

  /** A completion arrives: the request moves to the completion queue, whichever it is. */
  lemma {:induction false} NotifySound(c: Config, gen: nat -> Generated, v: View, k: nat)
    requires Sound(c, gen, v) && k < |v.outstanding|
    ensures Sound(c, gen, NotifyView(v, k))
  {
    hide Holding, Tallied, Pacing, Own, Sizes;
    var v' := NotifyView(v, k);
    var n := v.outstanding[k].n;
    NotifyPlaces(v, k);
    FlowKeeps.HoldingLogged(c, v.mem, v.submitted, v.log, n, v.completed);
    assert v'.log[..v.completed] == v.log[..v.completed];
    assert EngineOf(v') == EngineOf(v);
  }

  lemma NotifyPlaces(v: View, k: nat)
    requires Places(v) && k < |v.outstanding|
    ensures Places(NotifyView(v, k)) && v.completed <= |v.log|
  {
    hide Perm;
    var v' := NotifyView(v, k);
    var n, b := v.outstanding[k].n, v.completed + |v.batch|;
    PermMove(v.log, Nums(v.outstanding), |v.log| + |v.outstanding|, k);
    assert Nums(v'.outstanding) == SlotTable.RemoveAt(Nums(v.outstanding), k);
    assert v'.log[v.completed..b] == v.log[v.completed..b];
    assert v'.log[b..] == v.log[b..] + [n];
    assert Nums(v'.done) == Nums(v.done) + [n];
  }

  lemma {:induction false} CollectSound(c: Config, gen: nat -> Generated, v: View)
    requires Sound(c, gen, v) && v.batch == [] && v.running
    ensures Sound(c, gen, CollectView(v))
  {
    hide Holding, Tallied, Sizes, Own;
    var v' := CollectView(v);
    var b := |v'.log|;
    assert v.completed + |v.batch| == v.completed && v.log[v.completed..] == v.log[v.completed..b];
    assert v.log[b..] == [] == Nums([]);
  }

  // ---- processing one completion ----

  lemma PacedBelow(c: Config, v: View)
    requires Pacing(c, EngineOf(v), |v.log| + |v.outstanding|)
    ensures |v.log| + |v.outstanding| <= v.submitted && v.inflight == |v.log| + |v.outstanding| - v.completed
  {
  }

  lemma FirstOfBatch(c: Config, gen: nat -> Generated, v: View)
    requires Places(v) && AllGenuine(gen, v) && v.batch != []
    ensures v.completed < |v.log| && v.batch[0].n == v.log[v.completed] < v.submitted && Own(gen, v.mem, v.batch[0])
    ensures forall i, j :: 0 <= i < j < |v.log| ==> v.log[i] != v.log[j]
  {
    PermBelow(v.log, Nums(v.outstanding), |v.log| + |v.outstanding|);
    assert Nums(v.batch)[0] == v.log[v.completed];
  }

  /** The free cannot abort. */
  lemma {:induction false} RoomForFree(c: Config, gen: nat -> Generated, v: View)
    requires GoodConfig(c) && Sound(c, gen, v)
    ensures |v.mem.holes| < SlotTable.NR_HOLES && |v.mem.live| <= MostLive(c)
  {
    hide Tallied, Sizes, AllGenuine;
    var done := v.log[..v.completed];
    var data := FlowKeeps.Rest(v.submitted, done);
    PermBelow(v.log, Nums(v.outstanding), |v.log| + |v.outstanding|);
    PacedBelow(c, v);
    FlowKeeps.RestSize(v.submitted, done);
    FlowKeeps.ImageSize(data, false);
    forall o | o in v.mem.live.Keys ensures o in c.fixed.Keys + FlowKeeps.Image(data, false) {
      KeyCovered(c, v, o);
    }
    SubsetSize(v.mem.live.Keys, c.fixed.Keys + FlowKeeps.Image(data, false));
    LiveCount(c, v, data);
  }

  lemma KeyCovered(c: Config, v: View, o: Owner)
    requires Holding(c, v.mem, v.submitted, v.log, v.completed) && NoLists(v.mem) && o in v.mem.live
    requires v.completed <= |v.log|
    ensures o in c.fixed.Keys + FlowKeeps.Image(FlowKeeps.Rest(v.submitted, v.log[..v.completed]), false)
  {
    hide Partition, Buffered;
    match o
    case Fixed(i) =>
    case Data(r) =>
      FlowKeeps.NotProcessed(v.log, v.completed, r);
      assert r in FlowKeeps.Rest(v.submitted, v.log[..v.completed]);
    case ListOf(n) =>
  }

  lemma LiveCount(c: Config, v: View, data: set<nat>)
    requires GoodConfig(c) && Pacing(c, EngineOf(v), |v.log| + |v.outstanding|)
    requires Holding(c, v.mem, v.submitted, v.log, v.completed) && |data| == v.submitted - v.completed
    requires |FlowKeeps.Image(data, false)| == |data|
    requires |v.mem.live.Keys| <= |c.fixed.Keys + FlowKeeps.Image(data, false)|
    ensures |v.mem.holes| < SlotTable.NR_HOLES && |v.mem.live| <= MostLive(c)
  {
    hide Buffered, Processed, Partition;
    HolesBounded(c.lo, c.hi, v.mem.holes, v.mem.live);
    FlowKeeps.UnionSize(c.fixed.Keys, FlowKeeps.Image(data, false), {});
    assert |v.mem.live.Keys| == |v.mem.live| && |c.fixed.Keys| == |c.fixed|;
    assert c.fixed.Keys + FlowKeeps.Image(data, false) + {} == c.fixed.Keys + FlowKeeps.Image(data, false);
  }

  lemma TallySnoc(gen: nat -> Generated, t: Tally, ns: seq<nat>, r: IORequest)
    requires Tallied(gen, t, ns) && r.doWrite == gen(r.n).doWrite && r.size == gen(r.n).size
    ensures Tallied(gen, Charge(t, r), ns + [r.n])
  {
    assert (ns + [r.n])[..|ns|] == ns;
  }

  /** Accounting and freeing one completed request: neither wraps inflight_requests nor aborts. */
  lemma {:induction false} AccountSound(c: Config, gen: nat -> Generated, v: View)
    requires GoodConfig(c) && Sound(c, gen, v) && v.batch != [] && v.running && !v.post
    ensures 0 < v.inflight && AccountView(v).Some? && Sound(c, gen, AccountView(v).value)
  {
    hide GoodConfig, Holding, Pacing, Tallied, Perm, Genuine, Sizes;
    FirstOfBatch(c, gen, v);
    RoomForFree(c, gen, v);
    AccountMemory(c, gen, v);
    var v' := if 0 < v.inflight then AccountView(v).value else v;
    AccountPaces(c, v, v');
    assert v'.log[..v'.completed] == v.log[..v.completed] + [v.batch[0].n];
    TallySnoc(gen, v.tally, v.log[..v.completed], v.batch[0]);
    AccountPlaces(gen, v, v');
  }

  lemma AccountMemory(c: Config, gen: nat -> Generated, v: View)
    requires GoodConfig(c) && Sound(c, gen, v) && v.batch != [] && |v.mem.holes| < SlotTable.NR_HOLES
    ensures var r := v.batch[0]; var m := GiveBuffer(v.mem, r.n, r.size);
      m.Some? && Holding(c, m.value, v.submitted, v.log, v.completed + 1) && m.value.bufs == v.mem.bufs && NoLists(m.value)
  {
    hide GoodConfig, Holding, Pacing, Tallied, Places, AllGenuine;
    FirstOfBatch(c, gen, v);
    assert Own(gen, v.mem, v.batch[0]);
    FlowKeeps.GiveBufferKeeps(c, v.mem, v.submitted, v.log, v.completed);
  }

  lemma AccountPaces(c: Config, v: View, v': View)
    requires Pacing(c, EngineOf(v), |v.log| + |v.outstanding|) && Places(v) && v.batch != [] && v.running && !v.post
    requires 0 < v.inflight ==>
      v' == v.(mem := v'.mem, inflight := v.inflight - 1, completed := v.completed + 1, batch := v.batch[1..], post := true, tally := v'.tally)
    ensures 0 < v.inflight && Pacing(c, EngineOf(v'), |v'.log| + |v'.outstanding|)
  {
    hide Perm;
    PacedBelow(c, v);
  }

  lemma AccountPlaces(gen: nat -> Generated, v: View, v': View)
    requires Places(v) && AllGenuine(gen, v) && v.batch != []
    requires v' == v.(mem := v'.mem, inflight := v'.inflight, completed := v.completed + 1, batch := v.batch[1..],
                      post := v'.post, tally := v'.tally)
    requires v'.mem.bufs == v.mem.bufs
    ensures Places(v') && AllGenuine(gen, v')
  {
    hide Perm;
    var b := v.completed + |v.batch|;
    assert v'.completed + |v'.batch| == b;
    assert Nums(v'.batch) == Nums(v.batch)[1..] == v.log[v'.completed..b];
    GenuineMem(gen, v.mem, v'.mem, v.submitted, v.submitted, v.waiting);
    GenuineMem(gen, v.mem, v'.mem, v.submitted, v.submitted, v.outstanding);
    GenuineMem(gen, v.mem, v'.mem, v.submitted, v.submitted, v.done);
    GenuineMem(gen, v.mem, v'.mem, v.submitted, v.submitted, v.batch);
    forall i | 0 <= i < |v'.batch| ensures v'.batch[i].n < v.submitted && Own(gen, v'.mem, v'.batch[i]) {
      assert v'.batch[i] == v.batch[i + 1];
    }
  }

  // ---- waiting requests go out ----

  function DrainOne(v: View): View
    requires v.waiting != []
  {
    v.(waiting := v.waiting[1..], inflight := v.inflight + 1, outstanding := v.outstanding + [v.waiting[0]])
  }

  lemma {:induction false} DrainOneSound(c: Config, gen: nat -> Generated, v: View)
    requires Sound(c, gen, v) && v.post && v.waiting != [] && v.inflight < c.cap
    ensures Sound(c, gen, DrainOne(v))
  {
    hide Holding, Tallied, Perm, Sizes, Own;
    var v' := DrainOne(v);
    assert Nums(v.waiting)[0] == |v.log| + |v.outstanding|;
    PermSnoc(v.log, Nums(v.outstanding), |v.log| + |v.outstanding|);
    assert Nums(v'.outstanding) == Nums(v.outstanding) + [v.waiting[0].n];
    assert Nums(v'.waiting) == Nums(v.waiting)[1..];
    assert Places(v');
    assert AllGenuine(gen, v');
  }

  /** The draining loop ends with the cap reached or nothing waiting. */
  lemma {:induction false} DrainSound(c: Config, gen: nat -> Generated, v: View)
    requires Sound(c, gen, v) && v.post
    ensures var v' := DrainView(c.cap, v);
      && Sound(c, gen, v') && (v'.waiting != [] ==> v'.inflight >= c.cap)
      && v' == v.(waiting := v'.waiting, inflight := v'.inflight, outstanding := v'.outstanding)
    decreases |v.waiting|
  {
    hide Sound;
    if v.waiting != [] && v.inflight < c.cap {
      DrainOneSound(c, gen, v);
      DrainSound(c, gen, DrainOne(v));
    }
  }

  // ---- the end ----

  lemma {:induction false} BytesRemove(gen: nat -> Generated, s: seq<nat>, k: nat, w: bool)
    requires k < |s|
    ensures Bytes(gen, s, w) == Bytes(gen, SlotTable.RemoveAt(s, k), w) + if gen(s[k]).doWrite == w then gen(s[k]).size else 0
    ensures Count(gen, s, w) == Count(gen, SlotTable.RemoveAt(s, k), w) + if gen(s[k]).doWrite == w then 1 else 0
    decreases |s|
  {
    var m := |s| - 1;
    if k < m {
      BytesRemove(gen, s[..m], k, w);
      assert SlotTable.RemoveAt(s, k)[..m - 1] == SlotTable.RemoveAt(s[..m], k);
    } else {
      assert SlotTable.RemoveAt(s, k) == s[..m];
    }
  }

  /** 0, 1, ..., n - 1. */
  ghost function Upto(n: nat): seq<nat> { seq(n, i requires 0 <= i => i) }

  lemma PermRemove(s: seq<nat>, n: nat, k: nat)
    requires Perm(s, n) && k < n && s[k] == n - 1
    ensures Perm(SlotTable.RemoveAt(s, k), n - 1)
  {
    forall i | 0 <= i < n && i != k ensures s[i] < n - 1 {
      assert i < k ==> s[i] != s[k];
      assert k < i ==> s[k] != s[i];
    }
  }

  lemma UptoSnoc(gen: nat -> Generated, n: nat, w: bool)
    requires 0 < n
    ensures Bytes(gen, Upto(n), w) == Bytes(gen, Upto(n - 1), w) + if gen(n - 1).doWrite == w then gen(n - 1).size else 0
    ensures Count(gen, Upto(n), w) == Count(gen, Upto(n - 1), w) + if gen(n - 1).doWrite == w then 1 else 0
  {
    assert Upto(n)[..n - 1] == Upto(n - 1);
  }

  /** The statistics do not depend on the order of completion. */
  lemma {:induction false} TotalsOfAll(gen: nat -> Generated, s: seq<nat>, n: nat, w: bool)
    requires Perm(s, n)
    ensures Bytes(gen, s, w) == Bytes(gen, Upto(n), w) && Count(gen, s, w) == Count(gen, Upto(n), w)
    decreases n
  {
    hide Bytes, Count, Upto;
    if n == 0 {
      NoTotals(gen, s, w);
    } else {
      FlowTheorems.Pigeonhole(n, s);
      assert n - 1 in s;
      var k :| 0 <= k < |s| && s[k] == n - 1;
      BytesRemove(gen, s, k, w);
      PermRemove(s, n, k);
      TotalsOfAll(gen, SlotTable.RemoveAt(s, k), n - 1, w);
      UptoSnoc(gen, n, w);
    }
  }

  lemma NoTotals(gen: nat -> Generated, s: seq<nat>, w: bool)
    requires s == []
    ensures Bytes(gen, s, w) == Bytes(gen, Upto(0), w) && Count(gen, s, w) == Count(gen, Upto(0), w)
  {
  }

  /** Every request was completed once, its buffer is back, and the statistics are the totals. */
  ghost predicate Settled(c: Config, gen: nat -> Generated, v: View) {
    && v.submitted == v.completed == c.count && v.inflight == 0 && v.waiting == v.outstanding == v.done == []
    && Perm(v.log, c.count)
    && v.mem.live == c.fixed && v.mem.holes == c.holes
    && Tallied(gen, v.tally, Upto(c.count))
  }

  lemma {:induction false} EndSettled(c: Config, gen: nat -> Generated, v: View)
    requires GoodConfig(c) && c.avg <= c.count && Sound(c, gen, v)
    requires v.running && !v.post && v.batch == [] && v.completed >= c.count
    ensures Settled(c, gen, v)
  {
    hide GoodConfig, Holding, Tallied, Sizes, Own, Perm;
    EndCounts(c, v);
    assert v.log + Nums(v.outstanding) == v.log == v.log[..v.completed];
    TotalsOfAll(gen, v.log, c.count, false);
    TotalsOfAll(gen, v.log, c.count, true);
    EndTally(gen, v.tally, v.log, c.count);
    EndMemory(c, v);
  }

  lemma EndCounts(c: Config, v: View)
    requires Pacing(c, EngineOf(v), |v.log| + |v.outstanding|) && Places(v) && c.avg <= c.count
    requires v.running && !v.post && v.batch == [] && v.completed >= c.count
    ensures v.submitted == v.completed == c.count && v.inflight == 0 && v.waiting == v.outstanding == v.done == []
  {
    hide Perm;
    PacedBelow(c, v);
  }

  lemma EndTally(gen: nat -> Generated, t: Tally, s: seq<nat>, n: nat)
    requires Tallied(gen, t, s)
    requires forall w :: Bytes(gen, s, w) == Bytes(gen, Upto(n), w) && Count(gen, s, w) == Count(gen, Upto(n), w)
    ensures Tallied(gen, t, Upto(n))
  {
  }

  lemma EndMemory(c: Config, v: View)
    requires GoodConfig(c) && Holding(c, v.mem, v.submitted, v.log, v.completed) && NoLists(v.mem)
    requires v.submitted == v.completed == c.count && Perm(v.log, c.count)
    ensures v.mem.live == c.fixed && v.mem.holes == c.holes
  {
    hide Partition, Buffered;
    FlowTheorems.Pigeonhole(c.count, v.log);
    forall r: nat ensures Data(r) !in v.mem.live {
      assert r < c.count ==> r in v.log;
      FlowKeeps.NotProcessed(v.log, c.count, r);
      assert v.log[..c.count] == v.log;
    }
    OnlyFixed(c);
    FixedOnly(c, v.mem);
    FlowTheorems.FixedPartition(c);
    SameBlocksSameHoles(c.lo, c.hi, v.mem.holes, c.holes, c.fixed);
  }

  lemma OnlyFixed(c: Config)
    requires GoodConfig(c)
    ensures forall o :: o in c.fixed ==> o.Fixed?
  {
  }

  lemma FixedOnly(c: Config, m: Mem)
    requires (forall o :: o in c.fixed ==> o.Fixed?) && NoLists(m) && forall r: nat :: Data(r) !in m.live
    requires forall i: nat :: Fixed(i) in m.live <==> Fixed(i) in c.fixed
    requires forall i: nat :: Fixed(i) in c.fixed ==> m.live[Fixed(i)] == c.fixed[Fixed(i)]
    ensures m.live == c.fixed
  {
    forall o | o in m.live ensures o in c.fixed { assert o == Fixed(o.i); }
    forall o | o in c.fixed ensures o in m.live && m.live[o] == c.fixed[o] { assert o == Fixed(o.i); }
  }

  // ---- the thread itself ----

  /** The range freed for a completed request is in use and below 2^32. */
  lemma FreeAllowed(c: Config, gen: nat -> Generated, v: View)
    requires GoodConfig(c) && Sound(c, gen, v) && v.batch != []
    ensures var r := v.batch[0];
      && r.n in v.mem.bufs && r.buf == v.mem.bufs[r.n] && 0 < r.size
      && RangeUsed(v.mem.holes, r.buf, r.size) && r.buf + r.size < LIMIT32
  {
    hide GoodConfig, Pacing, Tallied, Perm;
    FirstOfBatch(c, gen, v);
    FlowKeeps.NotYetProcessed(v.log, v.completed);
    FlowKeeps.SizeFits(c, v.batch[0].n);
    assert Buffered(c, v.mem, v.batch[0].n);
    FreeKeeps(c.lo, c.hi, v.mem.holes, v.mem.live, Data(v.batch[0].n));
    Below32(c);
  }

  lemma Below32(c: Config)
    requires GoodConfig(c)
    ensures c.hi < LIMIT32
  {
  }

  /** While requests remain, one is in flight: the thread never waits for nothing. */
  lemma SomethingInFlight(c: Config, gen: nat -> Generated, v: View)
    requires Sound(c, gen, v) && 1 <= c.avg && 1 <= c.cap
    requires v.running && !v.post && v.batch == [] && v.completed < c.count
    ensures v.outstanding != [] || v.done != []
  {
    hide Holding, Tallied, AllGenuine, Perm;
    PacedBelow(c, v);
  }

  /** on_request_completed with all requests submitted. */
  lemma NoMoreSound(c: Config, gen: nat -> Generated, v: View)
    requires Sound(c, gen, v) && v.running && v.post && v.submitted >= c.count
    requires v.waiting != [] ==> v.inflight >= c.cap
    ensures Sound(c, gen, v.(post := false))
  {
    hide Holding, Tallied, Perm, Sizes, Own;
  }

  lemma FillDoneSound(c: Config, gen: nat -> Generated, v: View)
    requires Sound(c, gen, v) && !v.running && v.fill == c.avg
    ensures Sound(c, gen, v.(running := true))
  {
    hide Holding, Tallied, Perm, Sizes, Own;
  }

  lemma SubmitShape(cap: nat, g: Generated, v: View)
    ensures var t := TakeBuffer(v.mem, v.submitted, g.size);
      && (t == None ==> SubmitView(cap, g, v) == None)
      && (t.Some? ==>
            && v.submitted in t.value.bufs
            && SubmitView(cap, g, v) == Some(PlaceView(cap, v.(mem := t.value),
                 IORequest(v.submitted, g.doWrite, g.pos, t.value.bufs[v.submitted], g.size))))
  {
  }

  /** An allocation fails only for want of room. */
  lemma RefusedOnly(cap: nat, g: Generated, v: View)
    ensures SubmitView(cap, g, v) == None <==> FitIndex(v.mem.holes, PageUp(g.size), PAGE) == |v.mem.holes|
  {
  }

  /** What the interrupt thread may do to the thread's state. */
  ghost predicate Arrived(v: View, v': View) {
    v' == v.(outstanding := v'.outstanding, done := v'.done, log := v'.log) && |v'.done| >= |v.done|
  }

  class IOThread {
    const queueDepth: nat
    const requestCount: nat
    const averageEnqueued: nat
    const memory: MemorySpace
    const generate: nat -> Generated
    ghost const config: Config

    var nrSubmitted: nat
    var nrCompleted: nat
    var inflight: nat
    var tally: Tally
    var waiting: seq<IORequest>
    var completed: seq<IORequest>

    /** Commands the driver holds for this thread. */
    var outstanding: seq<IORequest>

    ghost var batch: seq<IORequest>
    ghost var log: seq<nat>
    ghost var fill: nat
    ghost var running: bool
    ghost var post: bool
    ghost var live: map<Owner, Block>
    ghost var bufs: map<nat, nat>

    ghost function Now(): View
      reads this, memory, memory.hole
      requires memory.Shape()
    {
      View(nrSubmitted, nrCompleted, inflight, waiting, outstanding, completed, batch, log, tally, fill, running, post,
           MemNow())
    }

    ghost function MemNow(): Mem
      reads this, memory, memory.hole
      requires memory.Shape()
    {
      Mem(memory.Holes(), live, bufs, memory.words)
    }

    ghost predicate Valid()
      reads this, memory, memory.hole
    {
      && memory.Valid() && Set() && Sound(config, generate, Now())
    }

    /** The settings this thread was made with. */
    ghost predicate Set() {
      && GoodConfig(config)
      && config.cap == queueDepth && config.avg == averageEnqueued && config.count == requestCount
    }

    constructor (memory: MemorySpace, generate: nat -> Generated, queueDepth: nat, requestCount: nat,
                 averageEnqueued: nat, ghost c: Config)
      requires memory.Valid() && memory.Holes() == c.holes && GoodConfig(c) && Sizes(c, generate)
      requires c.cap == queueDepth && c.avg == averageEnqueued && c.count == requestCount
      ensures Valid() && !running && fill == 0
      ensures this.memory == memory && config == c && this.generate == generate
      ensures this.queueDepth == queueDepth && this.requestCount == requestCount && this.averageEnqueued == averageEnqueued
    {
      this.memory, this.generate, this.queueDepth := memory, generate, queueDepth;
      this.requestCount, this.averageEnqueued, config := requestCount, averageEnqueued, c;
      nrSubmitted, nrCompleted, inflight, tally := 0, 0, 0, Tally(0, 0, 0, 0, 0);
      waiting, completed, outstanding := [], [], [];
      batch, log, fill, running, post, live, bufs := [], [], 0, false, false, c.fixed, map[];
      new;
      InitSound(c, generate, Now());
    }

    method SubmitToDevice(req: IORequest)
      modifies this`inflight, this`outstanding
      ensures inflight == old(inflight) + 1 && outstanding == old(outstanding) + [req]
    {
      inflight := inflight + 1;
      outstanding := outstanding + [req];
    }

    /** No hole takes the next request's buffer: the exception of a failed allocation. */
    ghost predicate NoRoom()
      reads this, memory, memory.hole
      requires memory.Shape()
    {
      FitIndex(memory.Holes(), PageUp(generate(nrSubmitted).size), PAGE) == |memory.Holes()|
    }

    /** False is the exception of an allocation without room; nothing has changed then. */
    method SubmitIoRequest(g: Generated) returns (ok: bool)
      requires memory.Valid() && g.size + 2 * PAGE <= LIMIT64
      modifies this`nrSubmitted, this`inflight, this`waiting, this`outstanding, this`live, this`bufs
      modifies memory`holeHead, memory`freeSlots, memory`holeIx, memory`freeIx, memory.hole
      ensures memory.Valid()
      ensures Now() == (match SubmitView(queueDepth, g, old(Now())) case None => old(Now()) case Some(v) => v)
      ensures ok <==> SubmitView(queueDepth, g, old(Now())).Some?
    {
      hide MemorySpace.Shape, MemorySpace.Holes, SubmitView, PlaceView, TakeBuffer, Canonical, Within32;
      SubmitShape(queueDepth, g, Now());
      var buf := TakeRequestBuffer(g.size);
      if buf == None {
        return false;
      }
      PlaceRequest(IORequest(nrSubmitted, g.doWrite, g.pos, buf.value, g.size));
      ok := true;
    }

    /** The rest of submit_io_request, once the request has its buffer. */
    method PlaceRequest(req: IORequest)
      requires memory.Valid()
      modifies this`nrSubmitted, this`inflight, this`waiting, this`outstanding
      ensures memory.Valid() && Now() == PlaceView(queueDepth, old(Now()), req)
    {
      hide MemorySpace.Shape, MemorySpace.Holes, Canonical, Within32;
      nrSubmitted := nrSubmitted + 1;
      if inflight >= queueDepth {
        waiting := waiting + [req];
      } else {
        SubmitToDevice(req);
      }
    }

    method TakeRequestBuffer(size: nat) returns (buf: Option<nat>)
      requires memory.Valid() && size + 2 * PAGE <= LIMIT64
      modifies this`live, this`bufs
      modifies memory`holeHead, memory`freeSlots, memory`holeIx, memory`freeIx, memory.hole
      ensures memory.Valid() && memory.words == old(memory.words)
      ensures buf.Some? <==> TakeBuffer(old(MemNow()), nrSubmitted, size).Some?
      ensures MemNow() == (match TakeBuffer(old(MemNow()), nrSubmitted, size) case None => old(MemNow()) case Some(m) => m)
      ensures buf.Some? ==> nrSubmitted in bufs && buf.value == bufs[nrSubmitted]
    {
      hide SlotTable.TwoLists, Canonical, AllocAddr, Carve, FitIndex;
      buf := memory.AllocatePages(size);
      if buf.Some? {
        live, bufs := live[Data(nrSubmitted) := Block(buf.value, PageUp(size))], bufs[nrSubmitted := buf.value];
      }
    }

    /** Runs in the interrupt thread, for any request outstanding. */
    method NotifyRequestCompletion(k: nat)
      requires Valid() && k < |outstanding|
      modifies this`outstanding, this`completed, this`log
      ensures Valid() && Now() == NotifyView(old(Now()), k)
    {
      hide Sound, GoodConfig, MemorySpace.Shape, Canonical;
      NotifySound(config, generate, Now(), k);
      log := log + [outstanding[k].n];
      completed := completed + [outstanding[k]];
      outstanding := SlotTable.RemoveAt(outstanding, k);
    }

    /** Any number of completions, of any requests. */
    method Arrivals(atLeast: nat)
      requires Valid() && atLeast <= |outstanding|
      modifies this`outstanding, this`completed, this`log
      ensures Valid() && Arrived(old(Now()), Now()) && |completed| >= |old(completed)| + atLeast
    {
      hide Sound, GoodConfig, MemorySpace.Shape, Canonical;
      var n: int := *;
      if n < atLeast {
        n := atLeast;
      }
      ghost var n0 := n;
      while 0 < n && outstanding != []
        invariant Valid() && Arrived(old(Now()), Now()) && 0 <= n <= n0
        invariant |completed| + |outstanding| == |old(completed)| + |old(outstanding)|
        invariant |completed| == |old(completed)| + n0 - n
      {
        var k: int := *;
        NotifyRequestCompletion(k % |outstanding|);
        n := n - 1;
      }
    }

    /** Replaces a completed request while some are left.  On false nothing has changed. */
    method OnRequestCompleted() returns (ok: bool)
      requires Valid() && running && post && (waiting != [] ==> inflight >= queueDepth)
      modifies this`nrSubmitted, this`inflight, this`waiting, this`outstanding, this`live, this`bufs, this`post
      modifies memory`holeHead, memory`freeSlots, memory`holeIx, memory`freeIx, memory.hole
      ensures Valid() && (!ok ==> NoRoom())
      ensures var n := NextView(config, generate, old(Now()));
        && (ok <==> n.Some?) && Now() == (match n case None => old(Now()) case Some(v) => v)
    {
      hide Sound, GoodConfig, SubmitView, MemorySpace.Shape, MemorySpace.Holes, Canonical, Within32;
      ghost var v := Now();
      if nrSubmitted < requestCount {
        var g := generate(nrSubmitted);
        SizeLimit(config, generate, v, nrSubmitted);
        RefusedOnly(queueDepth, g, v.(post := false));
        post := false;
        ok := SubmitIoRequest(g);
        if ok {
          SubmitSound(config, generate, v, v.(post := false));
        } else {
          post := true;
        }
      } else {
        NoMoreSound(config, generate, v);
        post := false;
        ok := true;
      }
    }

    /** The accounting of process_completed_request: the free is of memory in use and never
        aborts. */
    method Account(req: IORequest)
      requires Valid() && running && !post && batch != [] && req == batch[0]
      modifies this`nrCompleted, this`inflight, this`tally, this`live, this`batch, this`post
      modifies memory`holeHead, memory`freeSlots, memory`holeIx, memory`freeIx, memory.hole
      ensures Valid() && old(inflight) > 0 && Some(Now()) == AccountView(old(Now()))
    {
      hide Sound, GoodConfig, MemorySpace.Shape, MemorySpace.Holes, Canonical, Within32, GiveBuffer, AccountView, Charge;
      AccountSound(config, generate, Now());
      FreeAllowed(config, generate, Now());
      AccountShape(Now());
      FreeBuffer(req);
      CountOne(req);
    }

    /** The counters and statistics of one completed request. */
    method CountOne(req: IORequest)
      requires memory.Valid() && 0 < inflight && batch != []
      modifies this`nrCompleted, this`inflight, this`tally, this`batch, this`post
      ensures memory.Valid()
      ensures Now() == old(Now()).(inflight := old(inflight) - 1, completed := old(nrCompleted) + 1,
                                   batch := old(batch)[1..], post := true, tally := Charge(old(tally), req))
    {
      hide MemorySpace.Shape, MemorySpace.Holes, Canonical, Within32, Charge;
      inflight := inflight - 1;
      nrCompleted := nrCompleted + 1;
      tally := Charge(tally, req);
      batch, post := batch[1..], true;
    }

    /** Frees a completed request's buffer, at its raw size. */
    method FreeBuffer(req: IORequest)
      requires memory.Valid() && GiveBuffer(MemNow(), req.n, req.size).Some? && 0 < req.size
      requires req.n in bufs && req.buf == bufs[req.n]
      requires RangeUsed(memory.Holes(), req.buf, req.size) && req.buf + req.size < LIMIT32
      modifies this`live
      modifies memory`holeHead, memory`freeSlots, memory`holeIx, memory`freeIx, memory.hole
      ensures memory.Valid() && GiveBuffer(old(MemNow()), req.n, req.size) == Some(MemNow())
    {
      hide MemorySpace.Shape, MemorySpace.Holes, Canonical, Within32, HoleList.Release, RangeUsed;
      var freed := memory.Free(req.buf, req.size);
      live := live - {Data(req.n)};
    }

    /** On false the completed request is accounted for and only its successor is missing. */
    method ProcessCompletedRequest(req: IORequest) returns (ok: bool)
      requires Valid() && running && !post && batch != [] && req == batch[0]
      modifies this`nrSubmitted, this`nrCompleted, this`inflight, this`tally, this`waiting, this`outstanding
      modifies this`live, this`bufs, this`batch, this`post
      modifies memory`holeHead, memory`freeSlots, memory`holeIx, memory`freeIx, memory.hole
      ensures Valid() && (!ok ==> NoRoom()) && old(inflight) > 0 && AccountView(old(Now())).Some?
      ensures var v := DrainView(queueDepth, AccountView(old(Now())).value);
        var n := NextView(config, generate, v);
        && (ok <==> n.Some?) && Now() == (match n case None => v case Some(v') => v')
    {
      hide Sound, GoodConfig, MemorySpace.Shape, MemorySpace.Holes, Canonical, Within32, GiveBuffer, SubmitView;
      Account(req);
      DrainSound(config, generate, Now());
      DrainWaiting();
      ok := OnRequestCompleted();
    }

    /** Requests waiting go to the device, oldest first, up to the cap. */
    method DrainWaiting()
      requires memory.Valid()
      modifies this`waiting, this`inflight, this`outstanding
      ensures memory.Valid() && Now() == DrainView(queueDepth, old(Now()))
    {
      hide MemorySpace.Shape, MemorySpace.Holes, Canonical, Within32;
      ghost var v := Now();
      while waiting != [] && inflight < queueDepth
        invariant memory.Valid() && Now() == v.(waiting := waiting, inflight := inflight, outstanding := outstanding)
        invariant DrainView(queueDepth, Now()) == DrainView(queueDepth, v)
        decreases |waiting|
      {
        var next := waiting[0];
        waiting := waiting[1..];
        SubmitToDevice(next);
      }
    }

    /** Blocks until a completion arrives, then processes all that have. */
    method WaitForCompletedRequests() returns (ok: bool)
      requires Valid() && running && !post && batch == [] && nrCompleted < requestCount
      requires 1 <= averageEnqueued && 1 <= queueDepth
      modifies this`nrSubmitted, this`nrCompleted, this`inflight, this`tally, this`waiting, this`completed, this`outstanding
      modifies this`live, this`bufs, this`batch, this`post, this`log
      modifies memory`holeHead, memory`freeSlots, memory`holeIx, memory`freeIx, memory.hole
      ensures Valid() && nrCompleted > old(nrCompleted)
      ensures if ok then !post && batch == [] && nrCompleted >= old(nrCompleted) + |old(completed)| else NoRoom()
    {
      hide Sound, GoodConfig, MemorySpace.Shape, Canonical;
      SomethingInFlight(config, generate, Now());
      Arrivals(if completed == [] then 1 else 0);
      CollectSound(config, generate, Now());
      var rs := completed;
      completed, batch := [], completed;
      ok := ProcessAll(rs);
    }

    /** Further completions may arrive before each of the requests popped is processed. */
    method ProcessAll(rs: seq<IORequest>) returns (ok: bool)
      requires Valid() && running && !post && batch == rs != []
      modifies this`nrSubmitted, this`nrCompleted, this`inflight, this`tally, this`waiting, this`completed, this`outstanding
      modifies this`live, this`bufs, this`batch, this`post, this`log
      modifies memory`holeHead, memory`freeSlots, memory`holeIx, memory`freeIx, memory.hole
      ensures Valid() && old(nrCompleted) < nrCompleted <= old(nrCompleted) + |rs|
      ensures if ok then !post && batch == [] && nrCompleted == old(nrCompleted) + |rs| else NoRoom()
    {
      hide Sound, GoodConfig, MemorySpace.Shape, MemorySpace.Holes, Canonical, Within32, AccountView, NextView, DrainView;
      var i := 0;
      while i < |rs|
        invariant 0 <= i <= |rs| && batch == rs[i..] && nrCompleted == old(nrCompleted) + i
        invariant Valid() && !post && running
      {
        Arrivals(0);
        Advances(config, generate, Now());
        ok := ProcessCompletedRequest(rs[i]);
        if !ok {
          return;
        }
        i := i + 1;
      }
      ok := true;
    }

    /** The whole flow.  Without something to keep in flight the source would wait for ever.
        False: the next request found no room, which does not happen to a roomy flow.  True:
        as many requests are completed as asked for; and with no more started than that, each
        exactly once, in whatever order the device chose, with the allocator as it was. */
    method RunImpl(ghost most: nat) returns (ok: bool)
      requires Valid() && !running && fill == 0
      requires requestCount == 0 || (1 <= averageEnqueued && 1 <= queueDepth)
      modifies this, memory`holeHead, memory`freeSlots, memory`holeIx, memory`freeIx, memory.hole
      ensures Valid() && (!ok ==> NoRoom()) && (FlowRoom.Roomy(config, most) ==> ok)
      ensures ok ==> running && !post && batch == [] && nrCompleted >= requestCount
      ensures ok && averageEnqueued <= requestCount ==> Settled(config, generate, Now()) && memory.Holes() == config.holes
    {
      hide Sound, GoodConfig, FlowRoom.Roomy, MemorySpace.Shape, Canonical;
      ok := Prime();
      while ok && nrCompleted < requestCount
        invariant Valid()
        invariant if ok then running && !post && batch == [] else NoRoom()
        decreases ok, requestCount - nrCompleted
      {
        ok := WaitForCompletedRequests();
      }
      if ok && averageEnqueued <= requestCount {
        EndSettled(config, generate, Now());
      }
      if FlowRoom.Roomy(config, most) {
        NeverRefused(config, generate, Now(), most);
      }
    }

    /** The first loop of run_impl: as many requests as are to be kept enqueued. */
    method Prime() returns (ok: bool)
      requires Valid() && !running && fill == 0
      modifies this`nrSubmitted, this`inflight, this`waiting, this`outstanding, this`live, this`bufs, this`fill, this`running
      modifies memory`holeHead, memory`freeSlots, memory`holeIx, memory`freeIx, memory.hole
      ensures Valid() && nrCompleted == old(nrCompleted)
      ensures if ok then running && !post && batch == [] && nrSubmitted == averageEnqueued else NoRoom()
    {
      hide Sound, GoodConfig, SubmitView, MemorySpace.Shape, MemorySpace.Holes, Canonical, Within32;
      FillMay(config, generate, Now());
      var i := 0;
      while i < averageEnqueued
        invariant 0 <= i <= averageEnqueued && fill == i && !running && !post && batch == []
        invariant Valid()
      {
        ok := PrimeOne();
        if !ok {
          return;
        }
        i := i + 1;
      }
      FillDoneSound(config, generate, Now());
      PrimedAll(config, generate, Now());
      running := true;
      ok := true;
    }

    /** One turn of it.  On false nothing has changed. */
    method PrimeOne() returns (ok: bool)
      requires Valid() && !running && fill < averageEnqueued
      modifies this`nrSubmitted, this`inflight, this`waiting, this`outstanding, this`live, this`bufs, this`fill
      modifies memory`holeHead, memory`freeSlots, memory`holeIx, memory`freeIx, memory.hole
      ensures Valid() && fill == old(fill) + (if ok then 1 else 0) && (!ok ==> NoRoom())
      ensures var n := SubmitView(queueDepth, generate(old(nrSubmitted)), old(Now()).(fill := old(fill) + 1));
        && (ok <==> n.Some?) && Now() == (match n case None => old(Now()) case Some(v) => v)
    {
      hide Sound, GoodConfig, SubmitView, MemorySpace.Shape, MemorySpace.Holes, Canonical, Within32;
      ghost var v := Now();
      var g := generate(nrSubmitted);
      SizeLimit(config, generate, v, nrSubmitted);
      FillMay(config, generate, v);
      RefusedOnly(queueDepth, g, v.(fill := v.fill + 1));
      fill := fill + 1;
      ok := SubmitIoRequest(g);
      if ok {
        SubmitSound(config, generate, v, v.(fill := v.fill + 1));
        SubmitFills(queueDepth, g, v.(fill := v.fill + 1));
      } else {
        fill := fill - 1;
      }
    }
  }

  lemma SubmitFills(cap: nat, g: Generated, v: View)
    ensures SubmitView(cap, g, v).Some? ==> SubmitView(cap, g, v).value.fill == v.fill
  {
    hide TakeBuffer;
  }

  lemma PrimedAll(c: Config, gen: nat -> Generated, v: View)
    requires Sound(c, gen, v) && !v.running && v.fill == c.avg
    ensures v.submitted == c.avg
  {
    hide Holding, Tallied, Places, AllGenuine, Sizes;
  }

  /** What processing one completion does to the batch and the counters. */
  lemma Advances(c: Config, gen: nat -> Generated, v: View)
    requires v.batch != []
    ensures 0 < v.inflight && AccountView(v).Some? ==>
      var d := DrainView(c.cap, AccountView(v).value);
      && d.completed == v.completed + 1 && d.batch == v.batch[1..] && d.running == v.running
      && (NextView(c, gen, d).Some? ==>
            var n := NextView(c, gen, d).value;
            n.completed == d.completed && n.batch == d.batch && n.running == d.running && !n.post)
  {
    hide GiveBuffer, TakeBuffer, DrainView;
    if 0 < v.inflight && AccountView(v).Some? { DrainFields(c.cap, AccountView(v).value); }
  }

  lemma {:induction false} DrainFields(cap: nat, v: View)
    ensures var d := DrainView(cap, v); d == v.(waiting := d.waiting, inflight := d.inflight, outstanding := d.outstanding)
    decreases |v.waiting|
  {
    if v.waiting != [] && v.inflight < cap { DrainFields(cap, DrainOne(v)); }
  }

  /** A roomy flow always has room for the next buffer. */
  lemma {:induction false} NeverRefused(c: Config, gen: nat -> Generated, v: View, most: nat)
    requires GoodConfig(c) && FlowRoom.Roomy(c, most) && Sound(c, gen, v)
    ensures FitIndex(v.mem.holes, PageUp(gen(v.submitted).size), PAGE) < |v.mem.holes|
  {
    hide GoodConfig, FlowRoom.Roomy, Pacing, Places, Tallied, AllGenuine, Partition;
    RoomForFree(c, gen, v);
    FlowRoom.SizeWithin(c, most, v.submitted);
    BlocksWithin(c, v, most);
    FlowRoom.RoomForOne(c, most, v.mem, c.size(v.submitted));
  }

  lemma BlocksWithin(c: Config, v: View, most: nat)
    requires FlowRoom.Roomy(c, most) && Holding(c, v.mem, v.submitted, v.log, v.completed) && NoLists(v.mem)
    ensures forall o :: o in v.mem.live ==> v.mem.live[o].len <= most
  {
    hide Partition, MostLive;
    forall o | o in v.mem.live ensures v.mem.live[o].len <= most {
      match o
      case Fixed(i) =>
      case Data(r) => assert Buffered(c, v.mem, r);
      case ListOf(n) =>
    }
  }

  lemma AccountShape(v: View)
    requires v.batch != [] && 0 < v.inflight && AccountView(v).Some?
    ensures var r := v.batch[0]; var m := GiveBuffer(v.mem, r.n, r.size);
      && m.Some?
      && AccountView(v) == Some(v.(mem := m.value, inflight := v.inflight - 1, completed := v.completed + 1,
                                   batch := v.batch[1..], post := true, tally := Charge(v.tally, r)))
  {
    hide GiveBuffer, Charge;
  }

  lemma FillMay(c: Config, gen: nat -> Generated, v: View)
    requires Sound(c, gen, v) && !v.running
    ensures !v.post && v.batch == [] && (v.waiting != [] ==> v.inflight >= c.cap)
  {
    hide Holding, Tallied, Perm, Sizes, Own;
  }

  lemma SizeLimit(c: Config, gen: nat -> Generated, v: View, n: nat)
    requires GoodConfig(c) && Sound(c, gen, v)
    ensures gen(n).size + 2 * PAGE <= LIMIT64
  {
    hide Pacing, Places, Holding, Tallied, AllGenuine;
    assert gen(n).size == c.size(n) <= (Prp.PER_PAGE + 1) * PAGE;
  }
}
