/** What every reachable state of a flow satisfies, group by group. */
module FlowInvariant {
  import opened Wrappers
  import opened Memory
  import opened Arena
  import opened QueuePair
  import opened Commands
  import opened FlowModel
  import Prp

  function Min(a: nat, b: nat): nat { if a <= b then a else b }

  /** What the flow needs of its configuration: a depth the 16-bit head can count, whole-page
      requests whose PRP list fits one page, a seeded region below 2^32, and few enough blocks
      for the slot table. */
  ghost predicate GoodConfig(c: Config) {
    && 2 <= c.depth <= 65535 && c.firstId < IDS
    && (forall r :: 0 < c.size(r) <= (Prp.PER_PAGE + 1) * PAGE && c.size(r) % PAGE == 0)
    && c.hi < LIMIT32 && Partition(c.lo, c.hi, c.holes, c.fixed)
    && (forall o :: o in c.fixed ==> o.Fixed?)
    && MostLive(c) <= 510
  }

  /** The blocks that can be in use at once: those made before, the buffers of the requests
      enqueued, and the list pages of the commands in flight and the one being erased. */
  function MostLive(c: Config): nat {
    |c.fixed| + c.avg + Min(c.cap, c.avg) + 1
  }

  /** Room in the submission queue for every command the flow can have in flight. */
  predicate QueueRoom(c: Config) {
    Min(c.cap, c.avg) <= c.depth - 1
  }

  /** The 16-bit id the counter gives to command number n. */
  function IdOf(c: Config, n: nat): nat { (c.firstId + n) % IDS }

  // ---- how far each request has got ----

  /** Commands given an id, and requests passed to submit_to_device. */
  function Issued(h: History, sub: Sub): nat {
    |h.submitted| + if sub.Build? || sub.Enqueue? then 1 else 0
  }

  function Dispatched(h: History, sub: Sub): nat {
    Issued(h, sub) + if sub.Setup? then 1 else 0
  }

  /** Posted completions whose callback has run, and whose command is erased. */
  function FiredN(h: History, irq: Irq): nat {
    h.consumed + if irq.Release? || irq.Advance? then 1 else 0
  }

  function ReleasedN(h: History, irq: Irq): nat {
    h.consumed + if irq.Advance? then 1 else 0
  }

  // ---- pacing ----

  /** Requests submitted once the flow is primed and `done` completions were processed. */
  function Target(c: Config, done: nat): nat {
    if c.avg >= c.count then c.avg else Min(c.count, c.avg + done)
  }

  ghost predicate Consecutive(s: seq<nat>, lo: nat, hi: nat) {
    lo <= hi && |s| == hi - lo && forall i :: 0 <= i < |s| ==> s[i] == lo + i
  }

  /** The closed loop: requests go out in the order they were generated, exactly as many as
      the law says, at most `cap` at a time, and none waits while one more may go. */
  ghost predicate Pacing(c: Config, e: Engine, dispatched: nat) {
    && e.fill <= c.avg
    && (if e.running then e.fill == c.avg && (e.post ==> 0 < e.completed)
        else e.completed == 0 && e.batch == [] && !e.post)
    && e.submitted == (if e.running then Target(c, e.completed - (if e.post then 1 else 0)) else e.fill)
    && Consecutive(e.waiting, dispatched, e.submitted)
    && 0 <= e.inflight <= c.cap && e.inflight == dispatched - e.completed
    && (e.waiting != [] ==> e.inflight + (if e.post then 1 else 0) >= c.cap)
    && (0 < e.completed ==> 1 <= c.avg && 1 <= c.cap)
  }

  lemma {:induction false} EnlistPaces(c: Config, e: Engine, d: nat)
    requires Consecutive(e.waiting, d, e.submitted) && 0 <= e.inflight <= c.cap && e.inflight == d - e.completed
    requires e.waiting != [] ==> e.inflight >= c.cap
    ensures var e' := Enlist(e, c.cap); var d' := if Goes(e, c.cap) then d + 1 else d;
      && Consecutive(e'.waiting, d', e'.submitted) && 0 <= e'.inflight <= c.cap && e'.inflight == d' - e'.completed
      && (e'.waiting != [] ==> e'.inflight >= c.cap)
      && (Goes(e, c.cap) ==> e.submitted == d)
  {
  }

  // ---- submission ----

  ghost predicate Numbered(c: Config, h: History, i: nat) {
    i < |h.submitted| && h.submitted[i].cid == IdOf(c, i) && h.submitted[i].tag == i
  }

  /** Entries are numbered in order; the request in submit_to_device is the next one. */
  ghost predicate Queueing(c: Config, q: Queue, h: History, sub: Sub, idCounter: nat) {
    && q.depth == c.depth && Related(q, h)
    && (forall i :: 0 <= i < |h.submitted| ==> Numbered(c, h, i))
    && h.published + (if sub.RingSq? then 1 else 0) == |h.submitted|
    && (sub.Setup? ==> sub.r == |h.submitted|)
    && (sub.Build? || sub.Enqueue? ==> sub.r == |h.submitted| && sub.id == IdOf(c, sub.r))
    && idCounter == IdOf(c, Issued(h, sub))
  }

  // ---- the device ----

  ghost predicate FetchedEntry(h: History, x: Sqe) {
    x.tag < h.fetched <= |h.submitted| && x == h.submitted[x.tag]
  }

  /** Every fetched command is either still held or was posted, once. */
  ghost predicate Serving(h: History, held: set<Sqe>) {
    && (forall x :: x in held ==> FetchedEntry(h, x) && x !in h.posted)
    && (forall j :: 0 <= j < |h.posted| ==> FetchedEntry(h, h.posted[j]))
    && (forall i, j :: 0 <= i < j < |h.posted| ==> h.posted[i].tag != h.posted[j].tag)
    && |held| + |h.posted| == h.fetched
  }

  // ---- the interrupt ----

  /** The handler works on the oldest unconsumed entry; it writes its doorbell only for entries
      consumed since; when it sleeps, its doorbell is up to date, and no posted entry waits
      without an interrupt owed or on its way. */
  ghost predicate Interrupting(h: History, dev: Device, irq: Irq) {
    && (irq.Handle? || irq.Release? ==> h.consumed < |h.posted| && irq.c == h.posted[h.consumed])
    && (irq.Advance? ==> h.consumed < |h.posted|)
    && (irq.Idle? || irq == Check(false) ==> h.rung == h.consumed)
    && (irq.RingCq? || irq == Check(true) ==> h.rung < h.consumed)
    && ((irq.Idle? || irq.RingCq?) && h.consumed < |h.posted| ==> 0 < dev.irqs || dev.owed)
  }

  // ---- delivery ----

  /** Callbacks ran in completion order, once per completion, and each request they delivered
      is processed, in the thread's batch, or in the completion queue. */
  ghost predicate Delivery(h: History, irq: Irq, log: seq<nat>, done: seq<nat>, e: Engine) {
    && |log| == FiredN(h, irq) <= |h.posted|
    && (forall j :: 0 <= j < |log| ==> log[j] == h.posted[j].tag)
    && |log| == e.completed + |e.batch| + |done|
    && e.batch == log[e.completed..e.completed + |e.batch|]
    && done == log[e.completed + |e.batch|..]
  }

  // ---- the command table ----

  /** Command number n was erased among the first k completions. */
  ghost predicate Gone(posted: seq<Sqe>, k: nat, n: nat) {
    exists j :: 0 <= j < k && j < |posted| && posted[j].tag == n
  }

  ghost predicate Alive(issued: nat, posted: seq<Sqe>, k: nat, n: nat) {
    n < issued && !Gone(posted, k, n)
  }

  ghost function ListPages(live: map<Owner, Block>, n: nat): seq<nat> {
    if ListOf(n) in live then [live[ListOf(n)].addr] else []
  }

  ghost predicate Listed(c: Config, cmds: CommandMap, live: map<Owner, Block>, n: nat) {
    IdOf(c, n) in cmds && cmds[IdOf(c, n)] == AsyncCommand(IdOf(c, n), false, Some(n), ListPages(live, n))
  }

  /** The map holds exactly the commands issued and not erased, each under its own id. */
  ghost predicate Table(c: Config, cmds: CommandMap, live: map<Owner, Block>, issued: nat, posted: seq<Sqe>, k: nat) {
    && (forall n: nat :: Alive(issued, posted, k, n) ==> Listed(c, cmds, live, n))
    && (forall id :: id in cmds ==>
          cmds[id].callback.Some? && Alive(issued, posted, k, cmds[id].callback.value) && IdOf(c, cmds[id].callback.value) == id)
    && (forall n: nat :: ListOf(n) in live ==> Alive(issued, posted, k, n))
  }

  // ---- memory ----

  ghost predicate Processed(log: seq<nat>, k: nat, r: nat) {
    exists j :: 0 <= j < k && j < |log| && log[j] == r
  }

  ghost predicate Buffered(c: Config, m: Mem, r: nat) {
    Data(r) in m.live && r in m.bufs && m.live[Data(r)] == Block(m.bufs[r], c.size(r))
  }

  /** Live memory: what was there before, the buffers of submitted and unprocessed requests,
      and PRP list pages. */
  ghost predicate Holding(c: Config, m: Mem, submitted: nat, log: seq<nat>, k: nat) {
    && Partition(c.lo, c.hi, m.holes, m.live)
    && (forall i: nat :: Fixed(i) in m.live <==> Fixed(i) in c.fixed)
    && (forall i: nat :: Fixed(i) in c.fixed ==> m.live[Fixed(i)] == c.fixed[Fixed(i)])
    && (forall r: nat :: Data(r) in m.live ==> r < submitted && !Processed(log, k, r))
    && (forall r: nat :: r < submitted && !Processed(log, k, r) ==> Buffered(c, m, r))
    && (forall r: nat :: r < submitted ==> r in m.bufs)
  }

  // ---- PRP entries ----

  /** The data pointers in x describe request r's buffer, and its list page, if it has one,
      is its own. */
  ghost predicate Described(c: Config, m: Mem, prp1: nat, prp2: nat, r: nat) {
    && r in m.bufs && m.bufs[r] % PAGE == 0 && prp1 == m.bufs[r]
    && Prp.DecodesTo(Prp.Decode(m.words, prp1, prp2, c.size(r)), m.bufs[r], c.size(r))
    && (c.size(r) > 2 * PAGE ==> ListOf(r) in m.live && m.live[ListOf(r)] == Block(prp2, PAGE))
  }

  /** Every command built and not yet called back is described; no list page exists before
      its command is built, and each is one page long. */
  ghost predicate Describing(c: Config, m: Mem, h: History, sub: Sub, log: seq<nat>) {
    && (forall n :: 0 <= n < |h.submitted| && !Processed(log, |log|, n) ==>
          Described(c, m, h.submitted[n].prp1, h.submitted[n].prp2, n))
    && (sub.Enqueue? ==> Described(c, m, sub.prp1, sub.prp2, sub.r))
    && (forall n: nat :: ListOf(n) in m.live ==>
          n < |h.submitted| + (if sub.Enqueue? then 1 else 0) && m.live[ListOf(n)].len == PAGE)
  }

  // ---- all together ----

  ghost predicate Inv(c: Config, s: State) {
    && s.status != Aborted
    && (s.status == Running ==> Groups(c, s))
  }

  ghost predicate Groups(c: Config, s: State) {
    && Pacing(c, s.eng, Dispatched(s.h, s.sub))
    && Queueing(c, s.q, s.h, s.sub, s.idCounter)
    && Serving(s.h, s.dev.held)
    && Interrupting(s.h, s.dev, s.irq)
    && Delivery(s.h, s.irq, s.log, s.done, s.eng)
    && Table(c, s.cmds, s.mem.live, Issued(s.h, s.sub), s.h.posted, ReleasedN(s.h, s.irq))
    && Holding(c, s.mem, s.eng.submitted, s.log, s.eng.completed)
    && Describing(c, s.mem, s.h, s.sub, s.log)
  }

  /** The 16-bit id about to be given out is not in use. */
  ghost predicate FreshId(s: State) {
    s.sub.Setup? ==> s.idCounter !in s.cmds
  }
}
