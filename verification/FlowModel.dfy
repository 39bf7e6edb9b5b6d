/** One flow as a state machine: the I/O thread, the driver, the queue pair, the device and
    the interrupt thread as interleaved steps over the shared allocator.  A step is as large
    as the lock or the single memory access that makes it atomic in the source; writes to
    memory no other side reads yet, such as a PRP list under construction, are part of it. */
module FlowModel {
  import opened Wrappers
  import opened HoleList
  import opened Memory
  import opened Arena
  import opened QueuePair
  import opened Commands
  import Prp
  import SlotTable

  /** Who a block of DMA memory belongs to: the rings and other blocks made before the run,
      a request's buffer, or the PRP list of a command. */
  datatype Owner = Fixed(i: nat) | Data(r: nat) | ListOf(r: nat)

  /** `cap` is the thread's queue_depth, `avg` average_enqueued_requests, `count`
      request_count, `size(r)` the byte size generated for request number r, and `firstId` the
      driver's command id counter when the flow starts. */
  datatype Config = Config(
    depth: nat, cap: nat, avg: nat, count: nat, size: nat -> nat, firstId: nat,
    lo: nat, hi: nat, holes: seq<Hole>, fixed: map<Owner, Block>)

  /** Free memory; the owner of every block in use; each request's buffer; memory contents. */
  datatype Mem = Mem(holes: seq<Hole>, live: map<Owner, Block>, bufs: map<nat, nat>, words: Prp.Words)

  /** The I/O thread.  `fill` counts the turns of the loop that primes the flow, `running`
      says that loop is over, `batch` is what wait_for_completed_requests popped, and `post`
      that a request is between its accounting and on_request_completed. */
  datatype Engine = Engine(
    submitted: nat, completed: nat, inflight: int, waiting: seq<nat>,
    fill: nat, running: bool, batch: seq<nat>, post: bool)

  /** Where the thread is inside submit_to_device. */
  datatype Sub =
    | NoSub
    | Setup(r: nat)
    | Build(r: nat, id: nat)
    | Enqueue(r: nat, id: nat, prp1: nat, prp2: nat)
    | RingSq

  /** The device: commands fetched and not completed, an interrupt still to be sent, and
      interrupt messages on their way. */
  datatype Device = Device(held: set<Sqe>, owed: bool, irqs: nat)

  /** Where the interrupt thread is inside nvme_irq. */
  datatype Irq = Idle | Check(found: bool) | Handle(c: Sqe) | Release(c: Sqe) | Advance | RingCq

  datatype Status = Running | NoMemory | Aborted

  /** `done` is the completion queue of the thread, `log` all callbacks run so far; `h` is
      the history of the queue pair. */
  datatype State = State(
    status: Status, mem: Mem, eng: Engine, sub: Sub, cmds: CommandMap, idCounter: nat,
    q: Queue, h: History, dev: Device, irq: Irq, done: seq<nat>, log: seq<nat>)

  datatype Action =
    | Fill | FillDone | Collect | Process | Drain | OnCompleted
    | SetupCmd | BuildPrp | EnqueueCmd | RingSqDb
    | DevFetch | DevPost(c: Sqe) | DevIrq
    | IrqWake | IrqCheck | IrqHandle | IrqRelease | IrqAdvance | IrqRing

  function Init(c: Config): State {
    State(Running, Mem(c.holes, c.fixed, map[], map[]), Engine(0, 0, 0, [], 0, false, [], false), NoSub,
          map[], c.firstId, InitQueue(c.depth), EMPTY_HISTORY, Device({}, false, 0), Idle, [], [])
  }

  // ---- the I/O thread ----

  /** submit_io_request without the allocation: the request goes to the device while fewer
      than `cap` are in flight, and waits otherwise. */
  function Enlist(e: Engine, cap: nat): Engine {
    if e.inflight >= cap then e.(submitted := e.submitted + 1, waiting := e.waiting + [e.submitted])
    else e.(submitted := e.submitted + 1, inflight := e.inflight + 1)
  }

  predicate Goes(e: Engine, cap: nat) { e.inflight < cap }

  /** Allocation of the next request's buffer, rounded up to pages. */
  function TakeBuffer(m: Mem, r: nat, size: nat): Option<Mem> {
    var k := FitIndex(m.holes, PageUp(size), PAGE);
    if k < |m.holes| then
      var a := AllocAddr(m.holes[k], PAGE);
      Some(m.(holes := Carve(m.holes, k, PageUp(size), PAGE),
              live := m.live[Data(r) := Block(a, PageUp(size))], bufs := m.bufs[r := a]))
    else None
  }

  /** submit_io_request. */
  function SubmitIo(c: Config, s: State): State {
    var r := s.eng.submitted;
    match TakeBuffer(s.mem, r, c.size(r))
    case None => s.(status := NoMemory)
    case Some(m) => s.(mem := m, eng := Enlist(s.eng, c.cap), sub := if Goes(s.eng, c.cap) then Setup(r) else NoSub)
  }

  /** The free in process_completed_request, at the raw size; None is the abort. */
  function GiveBuffer(m: Mem, r: nat, size: nat): Option<Mem> {
    if r !in m.bufs then None
    else if size != 0 && |m.holes| >= SlotTable.NR_HOLES then None
    else Some(m.(holes := HoleList.Release(m.holes, m.bufs[r], size), live := m.live - {Data(r)}))
  }

  predicate DrainGuard(e: Engine, cap: nat) { e.waiting != [] && e.inflight < cap }

  function ThreadStep(c: Config, s: State, a: Action): Option<State> {
    var e := s.eng;
    if s.sub != NoSub then None
    else match a
      case Fill =>
        if e.running || e.fill >= c.avg then None
        else Some(SubmitIo(c, s.(eng := e.(fill := e.fill + 1))))
      case FillDone =>
        if e.running || e.fill < c.avg then None
        else Some(s.(eng := e.(running := true)))
      case Collect =>
        if !e.running || e.batch != [] || e.post || e.completed >= c.count || s.done == [] then None
        else Some(s.(eng := e.(batch := s.done), done := []))
      case Process =>
        if !e.running || e.batch == [] || e.post then None
        else
          var r := e.batch[0];
          (match GiveBuffer(s.mem, r, c.size(r))
           case None => Some(s.(status := Aborted))
           case Some(m) => Some(s.(mem := m, eng := e.(inflight := e.inflight - 1, completed := e.completed + 1,
                                                       batch := e.batch[1..], post := true))))
      case Drain =>
        if !e.post || !DrainGuard(e, c.cap) then None
        else Some(s.(eng := e.(inflight := e.inflight + 1, waiting := e.waiting[1..]), sub := Setup(e.waiting[0])))
      case OnCompleted =>
        if !e.post || DrainGuard(e, c.cap) then None
        else if e.submitted < c.count then Some(SubmitIo(c, s.(eng := e.(post := false))))
        else Some(s.(eng := e.(post := false)))
      case _ => None
  }

  // ---- submit_to_device, down to the doorbell ----

  /** setup_buffer: the memory after building the PRP entries, and the two data pointers.
      None: no page for the list. */
  function BuildList(m: Mem, r: nat, len: nat): Option<(Mem, nat, nat, seq<nat>)>
    requires r in m.bufs
  {
    var buf := m.bufs[r];
    if buf % PAGE + len <= 2 * PAGE then
      Some((m, buf, if len > Prp.FirstLen(buf) then buf + Prp.FirstLen(buf) else 0, []))
    else
      var k := FitIndex(m.holes, PAGE, PAGE);
      if k >= |m.holes| then None
      else
        var p := AllocAddr(m.holes[k], PAGE);
        match Prp.Setup(false, m.words, [p], buf, len)
        case None => None
        case Some(b) => Some((m.(holes := Carve(m.holes, k, PAGE, PAGE), live := m.live[ListOf(r) := Block(p, PAGE)],
                                 words := b.2), b.0, b.1, [p]))
  }

  function SubmitStep(c: Config, s: State, a: Action): Option<State> {
    match a
    case SetupCmd =>
      if s.sub.Setup? then
        Some(s.(cmds := SetupCommand(s.cmds, s.idCounter, Some(s.sub.r)), idCounter := (s.idCounter + 1) % IDS,
                sub := Build(s.sub.r, s.idCounter)))
      else None
    case BuildPrp =>
      if s.sub.Build? && s.sub.r in s.mem.bufs && s.sub.id in s.cmds then
        (match BuildList(s.mem, s.sub.r, c.size(s.sub.r))
         case None => Some(s.(status := NoMemory))
         case Some(b) =>
           var cmd := s.cmds[s.sub.id];
           Some(s.(mem := b.0, cmds := s.cmds[s.sub.id := cmd.(prpLists := cmd.prpLists + b.3)],
                   sub := Enqueue(s.sub.r, s.sub.id, b.1, b.2))))
      else None
    case EnqueueCmd =>
      if s.sub.Enqueue? && s.q.sqTail < |s.q.sq| then
        var sqe := Sqe(s.sub.id, s.sub.prp1, s.sub.prp2, s.sub.r);
        Some(s.(q := WriteSqe(s.q, sqe), h := s.h.(submitted := s.h.submitted + [sqe]), sub := RingSq))
      else None
    case RingSqDb =>
      if s.sub.RingSq? then
        Some(s.(q := WriteSqDoorbell(s.q, true), h := Publish(s.q, s.h, true), sub := NoSub))
      else None
    case _ => None
  }

  // ---- the device: fetches in order, completes in any order ----

  function DeviceStep(s: State, a: Action): Option<State> {
    match a
    case DevFetch =>
      if CanFetch(s.q) && s.q.devSqHead < |s.q.sq| then
        var (c, q') := Fetch(s.q);
        Some(s.(q := q', h := s.h.(fetched := s.h.fetched + 1), dev := s.dev.(held := s.dev.held + {c})))
      else None
    case DevPost(c) =>
      if c in s.dev.held && CanPost(s.q) && s.q.devCqTail < |s.q.cq| then
        Some(s.(q := Post(s.q, c), h := s.h.(posted := s.h.posted + [c]),
                dev := s.dev.(held := s.dev.held - {c}, owed := true)))
      else None
    case DevIrq =>
      if s.dev.owed then Some(s.(dev := s.dev.(owed := false, irqs := s.dev.irqs + 1))) else None
    case _ => None
  }

  // ---- the interrupt thread ----

  function IrqStep(s: State, a: Action): Option<State> {
    match a
    case IrqWake =>
      if s.irq.Idle? && 0 < s.dev.irqs then Some(s.(dev := s.dev.(irqs := s.dev.irqs - 1), irq := Check(false)))
      else None
    case IrqCheck =>
      if s.irq.Check? && s.q.cqHead < |s.q.cq| then
        Some(s.(irq := if CqePending(s.q) then Handle(s.q.cq[s.q.cqHead].cmd)
                       else if s.irq.found then RingCq else Idle))
      else None
    case IrqHandle =>
      if s.irq.Handle? then
        (match Callback(s.cmds, s.irq.c.cid)
         case Some(r) => Some(s.(done := s.done + [r], log := s.log + [r], irq := Release(s.irq.c)))
         case None => Some(s.(cmds := Completed(s.cmds, s.irq.c.cid), irq := Advance)))
      else None
    case IrqRelease =>
      if s.irq.Release? && s.irq.c.cid in s.cmds then
        var id := s.irq.c.cid;
        (match GivePages(s.mem.holes, s.cmds[id].prpLists)
         case None => Some(s.(status := Aborted))
         case Some(hs) => Some(s.(mem := s.mem.(holes := hs, live := s.mem.live - {ListOf(s.irq.c.tag)}),
                                  cmds := s.cmds - {id}, irq := Advance)))
      else None
    case IrqAdvance =>
      if s.irq.Advance? then
        Some(s.(q := UpdateCqHead(s.q), h := s.h.(consumed := s.h.consumed + 1), irq := Check(true)))
      else None
    case IrqRing =>
      if s.irq.RingCq? then
        Some(s.(q := RingCqDoorbell(s.q), h := s.h.(rung := s.h.consumed), irq := Idle))
      else None
    case _ => None
  }

  /** The state after action a, when it is enabled in s. */
  function Apply(c: Config, s: State, a: Action): Option<State> {
    if s.status != Running then None
    else match a
      case SetupCmd => SubmitStep(c, s, a)
      case BuildPrp => SubmitStep(c, s, a)
      case EnqueueCmd => SubmitStep(c, s, a)
      case RingSqDb => SubmitStep(c, s, a)
      case DevFetch => DeviceStep(s, a)
      case DevPost(_) => DeviceStep(s, a)
      case DevIrq => DeviceStep(s, a)
      case IrqWake => IrqStep(s, a)
      case IrqCheck => IrqStep(s, a)
      case IrqHandle => IrqStep(s, a)
      case IrqRelease => IrqStep(s, a)
      case IrqAdvance => IrqStep(s, a)
      case IrqRing => IrqStep(s, a)
      case _ => ThreadStep(c, s, a)
  }

  /** The states of a run, the first included; `as` may stop at a disabled action. */
  function Exec(c: Config, s: State, acts: seq<Action>): Option<State>
    decreases |acts|
  {
    if acts == [] then Some(s)
    else match Apply(c, s, acts[0])
      case None => None
      case Some(s') => Exec(c, s', acts[1..])
  }
}
