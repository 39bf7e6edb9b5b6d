/** The locks around command objects: any number of threads submitting synchronous and
    asynchronous commands, the interrupt thread and the I/O thread, one lock operation or one
    locked region at a time.  No erased command is touched, no wakeup is lost, and locks are
    taken in an acyclic order, so nothing waits for ever. */
module CommandLocks {
  import opened Wrappers

  /** command_mutex, a command's own mutex, completion_mutex and alloc_mutex. */
  datatype Lock = MapLock | CmdLock(id: nat) | DoneLock | AllocLock

  datatype Thread = Submitter(id: nat) | IrqThread | IoThread

  /** The submitter of one command: setup_async_command, setup_buffer, submission, and for a
      synchronous command wait and remove_async_command. */
  datatype Sub =
    | Start | Adding | Added | Allocating | Built
    | Sent | Looking | Asleep | Woken
    | Seen | Removing | Freeing | Finished

  /** handle_cqe for one completion.  Unlock remembers whether the command is to be released. */
  datatype Irq =
    | Idle | Want(id: nat) | Find(id: nat) | Handle(id: nat) | Call(id: nat) | Called(id: nat)
    | Unlock(id: nat, release: bool) | Release(id: nat) | Erase(id: nat) | Free(id: nat)

  /** wait_for_completed_requests. */
  datatype Io = Outside | Checking | Waiting | Notified

  /** `async(id)` says which commands have a callback.  A command's entry in `cmds` is its
      completed flag.  `sent` and `posted` are commands at the device and completions not yet
      taken up; `queue` is completed_requests, and `collected` all the I/O thread took from it. */
  datatype State = State(
    async: nat -> bool, subs: map<nat, Sub>, irq: Irq, io: Io, held: map<Lock, Thread>,
    cmds: map<nat, bool>, sent: set<nat>, posted: set<nat>, queue: seq<nat>, collected: seq<nat>)

  datatype Action = SubmitStep(id: nat) | IrqTake(id: nat) | IrqStep | IoStep | DevComplete(id: nat)

  function Init(async: nat -> bool, ids: set<nat>): State {
    State(async, map id | id in ids :: Start, Idle, Outside, map[], map[], {}, {}, [], [])
  }

  // ---- the steps ----

  function Take(s: State, l: Lock, t: Thread): Option<State> {
    if l in s.held then None else Some(s.(held := s.held[l := t]))
  }

  function Drop(s: State, l: Lock): State {
    s.(held := s.held - {l})
  }

  function SetSub(s: State, id: nat, p: Sub): State {
    s.(subs := s.subs[id := p])
  }

  /** Takes a lock and goes on at p. */
  function TakeSub(s: State, id: nat, l: Lock, p: Sub): Option<State> {
    match Take(s, l, Submitter(id)) case None => None case Some(s') => Some(SetSub(s', id, p))
  }

  function TakeIrq(s: State, l: Lock, p: Irq): Option<State> {
    match Take(s, l, IrqThread) case None => None case Some(s') => Some(s'.(irq := p))
  }

  function SubStep(s: State, id: nat): Option<State> {
    if id !in s.subs then None
    else match s.subs[id]
      case Start => TakeSub(s, id, MapLock, Adding)
      case Adding => Some(SetSub(Drop(s, MapLock), id, Added).(cmds := s.cmds[id := false]))
      case Added => TakeSub(s, id, AllocLock, Allocating)
      case Allocating => Some(SetSub(Drop(s, AllocLock), id, Built))
      case Built => Some(SetSub(s, id, if s.async(id) then Finished else Sent).(sent := s.sent + {id}))
      case Sent => TakeSub(s, id, CmdLock(id), Looking)
      case Looking =>
        if id !in s.cmds then None
        else Some(SetSub(Drop(s, CmdLock(id)), id, if s.cmds[id] then Seen else Asleep))
      case Asleep => None
      case Woken => TakeSub(s, id, CmdLock(id), Looking)
      case Seen => TakeSub(s, id, MapLock, Removing)
      case Removing => TakeSub(s, id, AllocLock, Freeing)
      case Freeing => Some(SetSub(Drop(Drop(s, AllocLock), MapLock), id, Finished).(cmds := s.cmds - {id}))
      case Finished => None
  }

  function HandlerStep(s: State): Option<State> {
    match s.irq
    case Idle => None
    case Want(id) => TakeIrq(s, MapLock, Find(id))
    case Find(id) =>
      if id !in s.cmds then Some(Drop(s, MapLock).(irq := Idle)) else TakeIrq(s, CmdLock(id), Handle(id))
    case Handle(id) =>
      if s.async(id) then TakeIrq(s, DoneLock, Call(id))
      else if id !in s.cmds then None
      else
        var s1 := Drop(s, CmdLock(id)).(irq := Unlock(id, false), cmds := s.cmds[id := true]);
        Some(if id in s.subs && s.subs[id] == Asleep then SetSub(s1, id, Woken) else s1)
    case Call(id) =>
      Some(Drop(s, DoneLock).(irq := Called(id), queue := s.queue + [id], io := if s.io == Waiting then Notified else s.io))
    case Called(id) => Some(Drop(s, CmdLock(id)).(irq := Unlock(id, true)))
    case Unlock(id, release) => Some(Drop(s, MapLock).(irq := if release then Release(id) else Idle))
    case Release(id) => TakeIrq(s, MapLock, Erase(id))
    case Erase(id) => TakeIrq(s, AllocLock, Free(id))
    case Free(id) => Some(Drop(Drop(s, AllocLock), MapLock).(irq := Idle, cmds := s.cmds - {id}))
  }

  function WaiterStep(s: State): Option<State> {
    match s.io
    case Outside => (match Take(s, DoneLock, IoThread) case None => None case Some(s') => Some(s'.(io := Checking)))
    case Checking =>
      Some(if s.queue == [] then Drop(s, DoneLock).(io := Waiting)
           else Drop(s, DoneLock).(io := Outside, queue := [], collected := s.collected + s.queue))
    case Waiting => None
    case Notified => (match Take(s, DoneLock, IoThread) case None => None case Some(s') => Some(s'.(io := Checking)))
  }

  function Apply(s: State, a: Action): Option<State> {
    match a
    case SubmitStep(id) => SubStep(s, id)
    case IrqTake(id) => if s.irq == Idle && id in s.posted then Some(s.(irq := Want(id), posted := s.posted - {id})) else None
    case IrqStep => HandlerStep(s)
    case IoStep => WaiterStep(s)
    case DevComplete(id) => if id in s.sent then Some(s.(sent := s.sent - {id}, posted := s.posted + {id})) else None
  }

  // ---- who holds what ----

  predicate SubHolds(p: Sub, id: nat, l: Lock) {
    match p
    case Adding => l == MapLock
    case Allocating => l == AllocLock
    case Looking => l == CmdLock(id)
    case Removing => l == MapLock
    case Freeing => l == MapLock || l == AllocLock
    case _ => false
  }

  predicate IrqHolds(p: Irq, l: Lock) {
    match p
    case Find(_) => l == MapLock
    case Handle(id) => l == MapLock || l == CmdLock(id)
    case Call(id) => l == MapLock || l == CmdLock(id) || l == DoneLock
    case Called(id) => l == MapLock || l == CmdLock(id)
    case Unlock(_, _) => l == MapLock
    case Erase(_) => l == MapLock
    case Free(_) => l == MapLock || l == AllocLock
    case _ => false
  }

  function Pc(s: State, id: nat): Sub {
    if id in s.subs then s.subs[id] else Start
  }

  predicate Holds(s: State, t: Thread, l: Lock) {
    match t
    case Submitter(id) => SubHolds(Pc(s, id), id, l)
    case IrqThread => IrqHolds(s.irq, l)
    case IoThread => s.io == Checking && l == DoneLock
  }

  /** The lock a thread's next step takes. */
  function Wants(s: State, t: Thread): Option<Lock> {
    match t
    case Submitter(id) => (
      if id !in s.subs then None
      else match s.subs[id]
        case Start => Some(MapLock)
        case Added => Some(AllocLock)
        case Sent => Some(CmdLock(id))
        case Woken => Some(CmdLock(id))
        case Seen => Some(MapLock)
        case Removing => Some(AllocLock)
        case _ => None)
    case IrqThread => (
      match s.irq
      case Want(_) => Some(MapLock)
      case Find(id) => if id in s.cmds then Some(CmdLock(id)) else None
      case Handle(id) => if s.async(id) then Some(DoneLock) else None
      case Release(_) => Some(MapLock)
      case Erase(_) => Some(AllocLock)
      case _ => None)
    case IoThread => if s.io == Outside || s.io == Notified then Some(DoneLock) else None
  }

  /** A lock is owned exactly by the thread that is inside its region. */
  ghost predicate Locks(s: State) {
    forall l, t :: (l in s.held && s.held[l] == t) <==> Holds(s, t, l)
  }

  // ---- the life of one command ----

  /** What the interrupt thread has to do with a command. */
  datatype Work = NoWork | Early | Calling | Late | Done

  function WorkOn(p: Irq, id: nat): Work {
    match p
    case Idle => NoWork
    case Want(i) => if i == id then Early else NoWork
    case Find(i) => if i == id then Early else NoWork
    case Handle(i) => if i == id then Early else NoWork
    case Call(i) => if i == id then Calling else NoWork
    case Called(i) => if i == id then Late else NoWork
    case Unlock(i, release) => if i == id then (if release then Late else Done) else NoWork
    case Release(i) => if i == id then Late else NoWork
    case Erase(i) => if i == id then Late else NoWork
    case Free(i) => if i == id then Late else NoWork
  }

  /** Its completion is still to be delivered, in exactly one place. */
  predicate Pending(sent: bool, posted: bool, w: Work) {
    (sent && !posted && w == NoWork) || (!sent && posted && w == NoWork) || (!sent && !posted && w == Early)
  }

  predicate LifeOf(async: bool, p: Sub, sent: bool, posted: bool, w: Work, cmd: Option<bool>) {
    match p
    case Start => !sent && !posted && w == NoWork && cmd == None
    case Adding => !sent && !posted && w == NoWork && cmd == None
    case Added => !sent && !posted && w == NoWork && cmd == Some(false)
    case Allocating => !sent && !posted && w == NoWork && cmd == Some(false)
    case Built => !sent && !posted && w == NoWork && cmd == Some(false)
    case Finished =>
      if async then
        (if cmd == None then !sent && !posted && w == NoWork
         else cmd == Some(false) && (Pending(sent, posted, w) || (!sent && !posted && (w == Calling || w == Late))))
      else !sent && !posted && (w == NoWork || w == Done) && cmd == None
    case Asleep => !async && Pending(sent, posted, w) && cmd == Some(false)
    case Sent => !async && Answered(sent, posted, w, cmd)
    case Looking => !async && Answered(sent, posted, w, cmd)
    case Woken => !async && !sent && !posted && (w == NoWork || w == Done) && cmd == Some(true)
    case Seen => !async && !sent && !posted && (w == NoWork || w == Done) && cmd == Some(true)
    case Removing => !async && !sent && !posted && (w == NoWork || w == Done) && cmd == Some(true)
    case Freeing => !async && !sent && !posted && (w == NoWork || w == Done) && cmd == Some(true)
  }

  predicate Answered(sent: bool, posted: bool, w: Work, cmd: Option<bool>) {
    if cmd == Some(false) then Pending(sent, posted, w)
    else cmd == Some(true) && !sent && !posted && (w == NoWork || w == Done)
  }

  function Entry(s: State, id: nat): Option<bool> {
    if id in s.cmds then Some(s.cmds[id]) else None
  }

  ghost predicate Life(s: State, id: nat) {
    LifeOf(s.async(id), Pc(s, id), id in s.sent, id in s.posted, WorkOn(s.irq, id), Entry(s, id))
  }

  ghost predicate Lives(s: State) {
    forall id: nat :: Life(s, id)
  }

  /** Its handler has reported the request to the I/O thread. */
  predicate Passed(s: State, id: nat) {
    s.async(id) && Pc(s, id) == Finished && (Entry(s, id) == None || WorkOn(s.irq, id) == Late)
  }

  ghost predicate NoRepeats(ids: seq<nat>) {
    forall i, j :: 0 <= i < j < |ids| ==> ids[i] != ids[j]
  }

  ghost function Reported(s: State): seq<nat> { s.collected + s.queue }

  /** Collected or queued are, once each, the requests reported. */
  ghost predicate EachOnce(s: State) {
    NoRepeats(Reported(s)) && forall id: nat :: id in Reported(s) <==> Passed(s, id)
  }

  ghost predicate Inv(s: State) {
    Locks(s) && Lives(s) && (s.io == Waiting ==> s.queue == []) && EachOnce(s)
  }

  // ---- every step keeps it ----

  lemma InitInv(async: nat -> bool, ids: set<nat>)
    ensures Inv(Init(async, ids))
  {
  }

  /** Everything Life looks at for i is as before. */
  ghost predicate SameFor(s: State, s': State, i: nat) {
    && s'.async == s.async && Pc(s', i) == Pc(s, i) && (i in s'.sent <==> i in s.sent) && (i in s'.posted <==> i in s.posted)
    && WorkOn(s'.irq, i) == WorkOn(s.irq, i) && Entry(s', i) == Entry(s, i)
  }

  lemma LivesBut(s: State, s': State, id: nat)
    requires Lives(s) && Life(s', id) && forall i: nat :: i != id ==> SameFor(s, s', i)
    ensures Lives(s')
  {
    hide LifeOf, Pc, WorkOn;
    forall i: nat ensures Life(s', i) {
      assert Life(s, i);
      assert i != id ==> SameFor(s, s', i);
    }
  }

  /** A lock was taken by t0. */
  lemma TakeLocks(s: State, s': State, t0: Thread, l0: Lock)
    requires Locks(s) && l0 !in s.held && s'.held == s.held[l0 := t0]
    requires forall t, l :: Holds(s', t, l) <==> Holds(s, t, l) || (t == t0 && l == l0)
    ensures Locks(s')
  {
    hide Holds;
    forall l, t ensures (l in s'.held && s'.held[l] == t) <==> Holds(s', t, l) {
      assert (l in s.held && s.held[l] == t) <==> Holds(s, t, l);
    }
  }

  /** Locks held by t0 were given back. */
  lemma DropLocks(s: State, s': State, t0: Thread, ls: set<Lock>)
    requires Locks(s) && s'.held == s.held - ls && forall l :: l in ls ==> Holds(s, t0, l)
    requires forall t, l :: Holds(s', t, l) <==> Holds(s, t, l) && !(t == t0 && l in ls)
    ensures Locks(s')
  {
    hide Holds;
    forall l, t ensures (l in s'.held && s'.held[l] == t) <==> Holds(s', t, l) {
      assert (l in s.held && s.held[l] == t) <==> Holds(s, t, l);
    }
  }

  /** Two threads never hold the same lock. */
  lemma Exclusive(s: State, t: Thread, u: Thread, l: Lock)
    requires Locks(s) && Holds(s, t, l) && Holds(s, u, l)
    ensures t == u
  {
    assert (l in s.held && s.held[l] == t) <==> Holds(s, t, l);
    assert (l in s.held && s.held[l] == u) <==> Holds(s, u, l);
  }

  lemma SamePassed(s: State, s': State, i: nat)
    requires SameFor(s, s', i)
    ensures Passed(s', i) <==> Passed(s, i)
  {
  }

  /** Nothing was reported in a step that concerns id only. */
  lemma EachOnceBut(s: State, s': State, id: nat)
    requires EachOnce(s) && Reported(s') == Reported(s) && (Passed(s', id) <==> Passed(s, id))
    requires forall i: nat :: i != id ==> SameFor(s, s', i)
    ensures EachOnce(s')
  {
    hide Passed, SameFor, NoRepeats;
    forall i: nat ensures i in Reported(s') <==> Passed(s', i) {
      if i != id { SamePassed(s, s', i); }
    }
  }

  /** id was reported, for the first time. */
  lemma EachOnceMore(s: State, s': State, id: nat)
    requires EachOnce(s) && Reported(s') == Reported(s) + [id] && !Passed(s, id) && Passed(s', id)
    requires forall i: nat :: i != id ==> SameFor(s, s', i)
    ensures EachOnce(s')
  {
    hide Passed, SameFor;
    assert id !in Reported(s);
    forall i: nat ensures i in Reported(s') <==> Passed(s', i) {
      if i != id { SamePassed(s, s', i); }
    }
  }

  // the submitters

  lemma HoldsSub(s: State, s': State, id: nat)
    requires s'.irq == s.irq && s'.io == s.io && id in s'.subs && s'.subs == s.subs[id := s'.subs[id]]
    ensures forall t, l :: Holds(s', t, l) <==> if t == Submitter(id) then SubHolds(s'.subs[id], id, l) else Holds(s, t, l)
  {
    hide SubHolds, IrqHolds;
  }

  ghost function SubDrops(p: Sub, id: nat): set<Lock> {
    match p
    case Adding => {MapLock}
    case Allocating => {AllocLock}
    case Looking => {CmdLock(id)}
    case Freeing => {AllocLock, MapLock}
    case _ => {}
  }

  lemma SubFrame(s: State, id: nat)
    requires SubStep(s, id).Some?
    ensures var s' := SubStep(s, id).value;
      && id in s.subs && s'.irq == s.irq && s'.io == s.io && id in s'.subs && s'.subs == s.subs[id := s'.subs[id]]
      && s'.queue == s.queue && s'.async == s.async
  {
    var p := SubMoves(s, id);
  }

  lemma SubMoves(s: State, id: nat) returns (p: Sub)
    requires SubStep(s, id).Some?
    ensures SubStep(s, id).value.subs == s.subs[id := p]
  {
    match s.subs[id]
    case Start => p := Adding;
    case Adding => p := Added;
    case Added => p := Allocating;
    case Allocating => p := Built;
    case Built => p := if s.async(id) then Finished else Sent;
    case Sent => p := Looking;
    case Looking => p := if s.cmds[id] then Seen else Asleep;
    case Woken => p := Looking;
    case Seen => p := Removing;
    case Removing => p := Freeing;
    case Freeing => p := Finished;
  }

  lemma SubTakes(s: State, id: nat)
    requires SubStep(s, id).Some? && Wants(s, Submitter(id)).Some?
    ensures var s' := SubStep(s, id).value; var l := Wants(s, Submitter(id)).value;
      && id in s.subs && l !in s.held && s'.held == s.held[l := Submitter(id)] && id in s'.subs
      && forall x :: SubHolds(s'.subs[id], id, x) <==> SubHolds(s.subs[id], id, x) || x == l
  {
  }

  lemma SubGives(s: State, id: nat)
    requires SubStep(s, id).Some? && Wants(s, Submitter(id)).None?
    ensures var s' := SubStep(s, id).value;
      && id in s.subs && id in s'.subs && s'.held == s.held - SubDrops(s.subs[id], id)
      && forall x :: (x in SubDrops(s.subs[id], id) <==> SubHolds(s.subs[id], id, x)) && !SubHolds(s'.subs[id], id, x)
  {
    assert Drop(Drop(s, AllocLock), MapLock).held == s.held - {AllocLock, MapLock};
    assert s.held - {} == s.held;
  }

  lemma {:induction false} SubLocks(s: State, id: nat)
    requires Locks(s) && SubStep(s, id).Some?
    ensures Locks(SubStep(s, id).value)
  {
    hide Locks, SubStep, SubHolds, IrqHolds, SubDrops, Wants;
    var s' := SubStep(s, id).value;
    SubFrame(s, id);
    HoldsSub(s, s', id);
    match Wants(s, Submitter(id))
    case Some(l) => SubTakes(s, id); TakeLocks(s, s', Submitter(id), l);
    case None => SubGives(s, id); DropLocks(s, s', Submitter(id), SubDrops(s.subs[id], id));
  }

  lemma SubOthers(s: State, id: nat)
    requires SubStep(s, id).Some?
    ensures forall i: nat :: i != id ==> SameFor(s, SubStep(s, id).value, i)
  {
    hide WorkOn, LifeOf;
    SubFrame(s, id);
    SubEntries(s, id);
  }

  lemma SubEntries(s: State, id: nat)
    requires SubStep(s, id).Some?
    ensures var s' := SubStep(s, id).value;
      forall i: nat :: i != id ==> (i in s'.sent <==> i in s.sent) && (i in s'.posted <==> i in s.posted) && Entry(s', i) == Entry(s, i)
  {
  }

  /** Up to submission the command is in the map, untouched by anyone else. */
  lemma SubSelfEarly(s: State, id: nat)
    requires Life(s, id) && SubStep(s, id).Some?
    requires var p := Pc(s, id); p == Start || p == Adding || p == Added || p == Allocating || p == Built
    ensures Life(SubStep(s, id).value, id)
  {
    hide WorkOn;
  }

  /** From then on whether it has completed shows in its entry. */
  lemma SubSelfLate(s: State, id: nat)
    requires Life(s, id) && SubStep(s, id).Some?
    requires var p := Pc(s, id); p != Start && p != Adding && p != Added && p != Allocating && p != Built
    ensures Life(SubStep(s, id).value, id)
  {
    hide WorkOn, Pending;
  }

  lemma {:induction false} SubSelf(s: State, id: nat)
    requires Life(s, id) && SubStep(s, id).Some?
    ensures Life(SubStep(s, id).value, id)
  {
    hide SubStep, Life;
    var p := Pc(s, id);
    if p == Start || p == Adding || p == Added || p == Allocating || p == Built {
      SubSelfEarly(s, id);
    } else {
      SubSelfLate(s, id);
    }
  }

  lemma SubPassed(s: State, id: nat)
    requires Life(s, id) && SubStep(s, id).Some?
    ensures var s' := SubStep(s, id).value; (Passed(s', id) <==> Passed(s, id)) && Reported(s') == Reported(s)
  {
    hide WorkOn;
  }

  lemma {:induction false} SubKeeps(s: State, id: nat)
    requires Inv(s) && SubStep(s, id).Some?
    ensures Inv(SubStep(s, id).value)
  {
    hide Locks, SubStep, Life, SameFor, EachOnce, Passed, Reported;
    SubLocks(s, id);
    SubFrame(s, id);
    SubOthers(s, id);
    assert Life(s, id);
    SubSelf(s, id);
    SubPassed(s, id);
    LivesBut(s, SubStep(s, id).value, id);
    EachOnceBut(s, SubStep(s, id).value, id);
  }

  // the interrupt thread

  ghost function IrqDrops(s: State): set<Lock> {
    match s.irq
    case Find(id) => if id in s.cmds then {} else {MapLock}
    case Handle(id) => if s.async(id) then {} else {CmdLock(id)}
    case Call(_) => {DoneLock}
    case Called(id) => {CmdLock(id)}
    case Unlock(_, _) => {MapLock}
    case Free(_) => {AllocLock, MapLock}
    case _ => {}
  }

  /** Waking a sleeping thread changes no lock. */
  lemma HoldsIrq(s: State, s': State)
    requires s'.io == s.io || (s.io == Waiting && s'.io == Notified)
    requires forall id: nat :: Pc(s', id) == Pc(s, id) || (Pc(s, id) == Asleep && Pc(s', id) == Woken)
    ensures forall t, l :: Holds(s', t, l) <==> if t == IrqThread then IrqHolds(s'.irq, l) else Holds(s, t, l)
  {
    hide IrqHolds, Pc;
    forall t, l ensures Holds(s', t, l) <==> if t == IrqThread then IrqHolds(s'.irq, l) else Holds(s, t, l) {
      if t.Submitter? { assert Pc(s', t.id) == Pc(s, t.id) || (Pc(s, t.id) == Asleep && Pc(s', t.id) == Woken); }
    }
  }

  lemma IrqFrame(s: State)
    requires HandlerStep(s).Some?
    ensures var s' := HandlerStep(s).value;
      && (s'.io == s.io || (s.io == Waiting && s'.io == Notified)) && s'.async == s.async
      && (s'.io == Waiting ==> s'.queue == s.queue)
      && (forall id: nat :: Pc(s', id) == Pc(s, id) || (Pc(s, id) == Asleep && Pc(s', id) == Woken))
  {
    IrqWakes(s);
  }

  lemma IrqWakes(s: State)
    requires HandlerStep(s).Some?
    ensures var s' := HandlerStep(s).value;
      s'.subs == s.subs || (s.irq.Handle? && s.irq.id in s.subs && s.subs[s.irq.id] == Asleep
                            && s'.subs == s.subs[s.irq.id := Woken])
  {
  }

  lemma IrqTakes(s: State)
    requires HandlerStep(s).Some? && Wants(s, IrqThread).Some?
    ensures var s' := HandlerStep(s).value; var l := Wants(s, IrqThread).value;
      && l !in s.held && s'.held == s.held[l := IrqThread]
      && forall x :: IrqHolds(s'.irq, x) <==> IrqHolds(s.irq, x) || x == l
  {
  }

  lemma IrqGives(s: State)
    requires HandlerStep(s).Some? && Wants(s, IrqThread).None?
    ensures var s' := HandlerStep(s).value;
      && s'.held == s.held - IrqDrops(s)
      && forall x :: (x in IrqDrops(s) ==> IrqHolds(s.irq, x))
                     && (IrqHolds(s'.irq, x) <==> IrqHolds(s.irq, x) && x !in IrqDrops(s))
  {
    assert Drop(Drop(s, AllocLock), MapLock).held == s.held - {AllocLock, MapLock};
  }

  lemma {:induction false} IrqLocks(s: State)
    requires Locks(s) && HandlerStep(s).Some?
    ensures Locks(HandlerStep(s).value)
  {
    hide Locks, HandlerStep, SubHolds, IrqHolds, IrqDrops, Wants, Pc;
    var s' := HandlerStep(s).value;
    IrqFrame(s);
    HoldsIrq(s, s');
    match Wants(s, IrqThread)
    case Some(l) => IrqTakes(s); TakeLocks(s, s', IrqThread, l);
    case None => IrqGives(s); DropLocks(s, s', IrqThread, IrqDrops(s));
  }

  /** The command the interrupt thread is at. */
  function Current(p: Irq): nat
    requires p != Idle
  {
    match p
    case Want(id) => id
    case Find(id) => id
    case Handle(id) => id
    case Call(id) => id
    case Called(id) => id
    case Unlock(id, _) => id
    case Release(id) => id
    case Erase(id) => id
    case Free(id) => id
  }

  lemma IrqEntries(s: State)
    requires HandlerStep(s).Some?
    ensures var s' := HandlerStep(s).value;
      && s.irq != Idle && s'.sent == s.sent && s'.posted == s.posted && s'.async == s.async
      && forall i: nat :: i != Current(s.irq) ==> Entry(s', i) == Entry(s, i) && Pc(s', i) == Pc(s, i)
  {
  }

  lemma IrqWork(s: State)
    requires HandlerStep(s).Some?
    ensures s.irq != Idle
      && forall i: nat :: i != Current(s.irq) ==> WorkOn(HandlerStep(s).value.irq, i) == WorkOn(s.irq, i)
  {
  }

  lemma IrqOthers(s: State)
    requires HandlerStep(s).Some?
    ensures s.irq != Idle && forall i: nat :: i != Current(s.irq) ==> SameFor(s, HandlerStep(s).value, i)
  {
    hide HandlerStep, WorkOn, Entry, Pc, Current;
    IrqEntries(s);
    IrqWork(s);
  }

  lemma IrqSelfEarly(s: State)
    requires HandlerStep(s).Some? && Life(s, Current(s.irq)) && (s.irq.Want? || s.irq.Find? || s.irq.Handle?)
    ensures Life(HandlerStep(s).value, Current(s.irq))
  {
  }

  lemma IrqSelfCall(s: State)
    requires HandlerStep(s).Some? && Life(s, Current(s.irq)) && (s.irq.Call? || s.irq.Called? || s.irq.Unlock?)
    ensures Life(HandlerStep(s).value, Current(s.irq))
  {
  }

  lemma IrqSelfLate(s: State)
    requires HandlerStep(s).Some? && Life(s, Current(s.irq)) && (s.irq.Release? || s.irq.Erase? || s.irq.Free?)
    ensures Life(HandlerStep(s).value, Current(s.irq))
  {
  }

  lemma {:induction false} IrqSelf(s: State)
    requires HandlerStep(s).Some? && Life(s, Current(s.irq))
    ensures Life(HandlerStep(s).value, Current(s.irq))
  {
    hide HandlerStep, Life;
    IrqWork(s);
    if s.irq.Want? || s.irq.Find? || s.irq.Handle? {
      IrqSelfEarly(s);
    } else if s.irq.Call? || s.irq.Called? || s.irq.Unlock? {
      IrqSelfCall(s);
    } else {
      IrqSelfLate(s);
    }
  }

  /** The call of the callback reports the request; no other step of the handler does. */
  lemma IrqReports(s: State)
    requires HandlerStep(s).Some? && Life(s, Current(s.irq))
    ensures var s' := HandlerStep(s).value; var id := Current(s.irq);
      if s.irq.Call? then Reported(s') == Reported(s) + [id] && !Passed(s, id) && Passed(s', id)
      else Reported(s') == Reported(s) && (Passed(s', id) <==> Passed(s, id))
  {
    assert s.collected + (s.queue + [Current(s.irq)]) == Reported(s) + [Current(s.irq)];
  }

  lemma {:induction false} IrqKeeps(s: State)
    requires Inv(s) && HandlerStep(s).Some?
    ensures Inv(HandlerStep(s).value)
  {
    hide Locks, HandlerStep, Life, SameFor, EachOnce, Passed, Reported;
    IrqLocks(s);
    IrqFrame(s);
    IrqOthers(s);
    assert Life(s, Current(s.irq));
    IrqSelf(s);
    LivesBut(s, HandlerStep(s).value, Current(s.irq));
    IrqReports(s);
    if s.irq.Call? {
      EachOnceMore(s, HandlerStep(s).value, Current(s.irq));
    } else {
      EachOnceBut(s, HandlerStep(s).value, Current(s.irq));
    }
  }

  // the I/O thread and the device

  lemma {:induction false} IoKeeps(s: State)
    requires Inv(s) && WaiterStep(s).Some?
    ensures Inv(WaiterStep(s).value)
  {
    hide Locks, Life, SubHolds, IrqHolds, LifeOf, EachOnce;
    var s' := WaiterStep(s).value;
    assert forall t, l :: Holds(s', t, l) <==> if t == IoThread then s'.io == Checking && l == DoneLock else Holds(s, t, l);
    if s.io == Checking {
      DropLocks(s, s', IoThread, {DoneLock});
    } else {
      TakeLocks(s, s', IoThread, DoneLock);
    }
    assert forall i: nat :: SameFor(s, s', i);
    assert Reported(s') == Reported(s);
    SamePassed(s, s', 0);
    EachOnceBut(s, s', 0);
    forall i: nat ensures Life(s', i) { assert Life(s, i); SameLife(s, s', i); }
  }

  lemma SameLife(s: State, s': State, i: nat)
    requires Life(s, i) && SameFor(s, s', i)
    ensures Life(s', i)
  {
  }

  lemma SameLocks(s: State, s': State)
    requires Locks(s) && s'.held == s.held && forall t, l :: Holds(s', t, l) <==> Holds(s, t, l)
    ensures Locks(s')
  {
    hide Holds;
    forall l, t ensures (l in s'.held && s'.held[l] == t) <==> Holds(s', t, l) {
      assert (l in s.held && s.held[l] == t) <==> Holds(s, t, l);
    }
  }

  lemma {:induction false} DeviceKeeps(s: State, id: nat)
    requires Inv(s) && Apply(s, DevComplete(id)).Some?
    ensures Inv(Apply(s, DevComplete(id)).value)
  {
    hide Locks, SubHolds, IrqHolds, EachOnce;
    var s' := Apply(s, DevComplete(id)).value;
    SameLocks(s, s');
    assert Life(s, id);
    LivesBut(s, s', id);
    EachOnceBut(s, s', id);
  }

  lemma {:induction false} TakeKeeps(s: State, id: nat)
    requires Inv(s) && Apply(s, IrqTake(id)).Some?
    ensures Inv(Apply(s, IrqTake(id)).value)
  {
    hide Locks, SubHolds, EachOnce;
    var s' := Apply(s, IrqTake(id)).value;
    SameLocks(s, s');
    assert Life(s, id);
    LivesBut(s, s', id);
    EachOnceBut(s, s', id);
  }

  lemma {:induction false} StepKeeps(s: State, a: Action)
    requires Inv(s) && Apply(s, a).Some?
    ensures Inv(Apply(s, a).value)
  {
    hide Inv, SubStep, HandlerStep, WaiterStep;
    match a
    case SubmitStep(id) => SubKeeps(s, id);
    case IrqTake(id) => TakeKeeps(s, id);
    case IrqStep => IrqKeeps(s);
    case IoStep => IoKeeps(s);
    case DevComplete(id) => DeviceKeeps(s, id);
  }

  // ---- runs ----

  ghost function Exec(s: State, acts: seq<Action>): Option<State>
    decreases |acts|
  {
    if acts == [] then Some(s)
    else
      match Apply(s, acts[0])
      case None => None
      case Some(s') => Exec(s', acts[1..])
  }

  lemma {:induction false} RunKeeps(s: State, acts: seq<Action>)
    requires Inv(s) && Exec(s, acts).Some?
    ensures Inv(Exec(s, acts).value)
    decreases |acts|
  {
    hide Inv, Apply;
    if acts != [] {
      StepKeeps(s, acts[0]);
      RunKeeps(Apply(s, acts[0]).value, acts[1..]);
    }
  }

  // ---- no erased command is touched ----

  /** Between registration and submission, or inside AsyncCommand::wait up to the erasure. */
  predicate Uses(p: Sub) {
    || p == Added || p == Allocating || p == Built
    || p == Sent || p == Looking || p == Asleep || p == Woken || p == Seen || p == Removing || p == Freeing
  }

  /** Whoever is about to use a command finds it in the map: the thread that registered it and
      describes its buffer or waits for it, the interrupt thread (whose "without command id"
      branch is dead), and the one erasing it. */
  lemma {:induction false} TouchedIsListed(s: State, id: nat)
    requires Inv(s)
    ensures WorkOn(s.irq, id) == Early || WorkOn(s.irq, id) == Calling || WorkOn(s.irq, id) == Late ==> id in s.cmds
    ensures Uses(Pc(s, id)) ==> id in s.cmds
    ensures !(SubHolds(Pc(s, id), id, CmdLock(id)) && IrqHolds(s.irq, CmdLock(id)))
  {
    assert Life(s, id);
    if SubHolds(Pc(s, id), id, CmdLock(id)) && IrqHolds(s.irq, CmdLock(id)) {
      Exclusive(s, Submitter(id), IrqThread, CmdLock(id));
    }
  }

  /** A thread asleep in wait has not been completed, and what will wake it is on its way. */
  lemma {:induction false} NoLostWakeup(s: State, id: nat)
    requires Inv(s) && Pc(s, id) == Asleep
    ensures id in s.cmds && !s.cmds[id]
    ensures id in s.sent || id in s.posted || s.irq == Want(id) || s.irq == Find(id) || s.irq == Handle(id)
  {
    assert Life(s, id);
  }

  /** What threads share. */
  datatype Shared = Table | Command(id: nat) | Allocator | Queue

  /** What thread t works on between taking its last lock and its next lock operation. */
  predicate WorksOn(s: State, t: Thread, x: Shared) {
    match t
    case Submitter(id) => (
      var p := Pc(s, id);
      || (x == Table && (p == Adding || p == Freeing))
      || (x == Allocator && (p == Allocating || p == Freeing))
      || (x == Command(id) && p == Looking))
    case IrqThread =>
      || (x == Table && (s.irq.Find? || s.irq.Free?))
      || (x == Allocator && s.irq.Free?)
      || (x == Queue && s.irq.Call?)
      || (x.Command? && (s.irq == Handle(x.id) || s.irq == Call(x.id) || s.irq == Called(x.id)))
    case IoThread => x == Queue && s.io == Checking
  }

  /** Never do two threads work on the same thing. */
  lemma {:induction false} OneAtATime(s: State, t: Thread, u: Thread, x: Shared)
    requires Inv(s) && WorksOn(s, t, x) && WorksOn(s, u, x)
    ensures t == u
  {
    hide Lives, EachOnce;
    var l := match x case Table => MapLock case Command(id) => CmdLock(id) case Allocator => AllocLock case Queue => DoneLock;
    Exclusive(s, t, u, l);
  }

  // ---- lock order ----

  function Rank(l: Lock): nat {
    match l case MapLock => 0 case CmdLock(_) => 1 case AllocLock => 1 case DoneLock => 2
  }

  /** A thread only waits for a lock above all those it holds. */
  lemma {:induction false} LockOrder(s: State, t: Thread, l: Lock)
    requires Holds(s, t, l) && Wants(s, t).Some?
    ensures Rank(l) < Rank(Wants(s, t).value)
  {
  }

  ghost predicate WaitsFor(s: State, t: Thread, u: Thread) {
    Wants(s, t).Some? && Holds(s, u, Wants(s, t).value)
  }

  ghost predicate Chain(s: State, ts: seq<Thread>) {
    forall i :: 0 <= i < |ts| - 1 ==> WaitsFor(s, ts[i], ts[i + 1])
  }

  /** So no chain of threads waiting for one another closes. */
  lemma {:induction false} NoCyclicWait(s: State, ts: seq<Thread>)
    requires Chain(s, ts) && 2 <= |ts|
    ensures ts[0] != ts[|ts| - 1]
  {
    if ts[0] == ts[|ts| - 1] {
      assert WaitsFor(s, ts[0], ts[1]);
      ChainRises(s, ts, |ts| - 1);
    }
  }

  lemma {:induction false} ChainRises(s: State, ts: seq<Thread>, j: nat)
    requires Chain(s, ts) && 0 < j < |ts|
    ensures Wants(s, ts[0]).Some?
    ensures Wants(s, ts[j]).Some? ==> Rank(Wants(s, ts[0]).value) < Rank(Wants(s, ts[j]).value)
    decreases j
  {
    hide Wants, Holds, Rank;
    assert WaitsFor(s, ts[j - 1], ts[j]);
    var l := Wants(s, ts[j - 1]).value;
    if Wants(s, ts[j]).Some? { LockOrder(s, ts[j], l); }
    if 1 < j { ChainRises(s, ts, j - 1); }
  }

  // ---- nothing waits for ever ----

  ghost predicate Stuck(s: State) {
    forall a :: Apply(s, a).None?
  }

  ghost predicate Off(s: State, a: Action) { Apply(s, a).None? }

  /** A holder of the topmost kinds of lock can always go on. */
  lemma TopHolderMoves(s: State, l: Lock)
    requires Locks(s) && l in s.held && (l == DoneLock || l == AllocLock)
    ensures !Stuck(s)
  {
    var t := s.held[l];
    assert Holds(s, t, l);
    match t
    case Submitter(id) => assert !Off(s, SubmitStep(id));
    case IrqThread => assert !Off(s, IrqStep);
    case IoThread => assert !Off(s, IoStep);
  }

  /** With those free, the holder of a command's mutex can. */
  lemma CommandHolderMoves(s: State, id: nat)
    requires Inv(s) && CmdLock(id) in s.held && DoneLock !in s.held
    ensures !Stuck(s)
  {
    hide Lives, EachOnce;
    var t := s.held[CmdLock(id)];
    assert Holds(s, t, CmdLock(id));
    TouchedIsListed(s, id);
    if t.IrqThread? { assert !Off(s, IrqStep); } else { assert !Off(s, SubmitStep(id)); }
  }

  /** With those free, the holder of command_mutex can. */
  lemma MapHolderMoves(s: State)
    requires Inv(s) && MapLock in s.held && DoneLock !in s.held && AllocLock !in s.held
    requires forall id :: CmdLock(id) !in s.held
    ensures !Stuck(s)
  {
    hide Lives, Life, LifeOf, EachOnce;
    var t := s.held[MapLock];
    assert Holds(s, t, MapLock);
    if t.Submitter? {
      assert !Off(s, SubmitStep(t.id));
    } else {
      if s.irq.Handle? { TouchedIsListed(s, s.irq.id); }
      assert !Off(s, IrqStep);
    }
  }

  lemma LocksFree(s: State)
    requires Inv(s) && Stuck(s)
    ensures forall l :: l !in s.held
  {
    hide Lives, Locks, Stuck, EachOnce;
    if DoneLock in s.held { TopHolderMoves(s, DoneLock); }
    if AllocLock in s.held { TopHolderMoves(s, AllocLock); }
    forall id ensures CmdLock(id) !in s.held {
      if CmdLock(id) in s.held { CommandHolderMoves(s, id); }
    }
    if MapLock in s.held { MapHolderMoves(s); }
    forall l ensures l !in s.held {
      if l.CmdLock? { assert CmdLock(l.id) !in s.held; }
    }
  }

  /** With every lock free, whatever is not at its end moves. */
  lemma Moves(s: State)
    requires Inv(s) && forall l :: l !in s.held
    ensures s.irq != Idle || s.io != Waiting || s.sent != {} || s.posted != {} ==> !Stuck(s)
  {
    hide Lives, Life, LifeOf, Locks, EachOnce;
    if s.irq != Idle {
      if s.irq.Handle? { TouchedIsListed(s, s.irq.id); }
      assert !Off(s, IrqStep);
    } else if s.io != Waiting {
      assert !Off(s, IoStep);
    } else if s.sent != {} {
      var id :| id in s.sent;
      assert !Off(s, DevComplete(id));
    } else if s.posted != {} {
      var id :| id in s.posted;
      assert !Off(s, IrqTake(id));
    }
  }

  lemma SubmitterMoves(s: State, id: nat)
    requires Inv(s) && id in s.subs && s.subs[id] != Finished && s.subs[id] != Asleep && forall l :: l !in s.held
    ensures !Stuck(s)
  {
    hide Lives, Locks, EachOnce;
    TouchedIsListed(s, id);
    assert !Off(s, SubmitStep(id));
  }

  lemma SubmitterAtRest(s: State, id: nat)
    requires Inv(s) && Stuck(s)
    ensures id in s.subs ==> s.subs[id] == Finished
    ensures id !in s.cmds
  {
    hide Lives, Locks, Stuck, EachOnce;
    LocksFree(s);
    Moves(s);
    LifeOfOne(s, id);
    if id in s.subs && s.subs[id] != Finished && s.subs[id] != Asleep { SubmitterMoves(s, id); }
  }

  lemma WaitingHasNone(s: State)
    requires Inv(s)
    ensures s.io == Waiting ==> s.queue == []
  {
  }

  lemma LifeOfOne(s: State, id: nat)
    requires Lives(s)
    ensures Life(s, id)
  {
  }

  /** Commands neither come nor go, nor change kind. */
  lemma {:induction false} SameCommands(s: State, acts: seq<Action>)
    requires Exec(s, acts).Some?
    ensures Exec(s, acts).value.async == s.async && Exec(s, acts).value.subs.Keys == s.subs.Keys
    decreases |acts|
  {
    hide SubStep, HandlerStep;
    if acts != [] {
      var a := acts[0];
      if a.SubmitStep? { SubFrame(s, a.id); }
      if a == IrqStep { IrqFrame(s); IrqWakes(s); }
      SameCommands(Apply(s, a).value, acts[1..]);
    }
  }

  /** In every reachable state the requests collected or queued are, once each, the
      asynchronous commands whose handler has called back. */
  lemma {:induction false} CollectedOnce(s: State, acts: seq<Action>, async: nat -> bool, ids: set<nat>)
    requires Exec(Init(async, ids), acts) == Some(s)
    ensures NoRepeats(s.collected + s.queue)
    ensures forall id: nat :: id in s.collected + s.queue <==>
      async(id) && Pc(s, id) == Finished && (id !in s.cmds || WorkOn(s.irq, id) == Late)
  {
    hide Apply, Locks, Lives;
    InitInv(async, ids);
    RunKeeps(Init(async, ids), acts);
    SameCommands(Init(async, ids), acts);
    forall id: nat ensures id in s.collected + s.queue <==>
      async(id) && Pc(s, id) == Finished && (id !in s.cmds || WorkOn(s.irq, id) == Late)
    {
      assert id in Reported(s) <==> Passed(s, id);
    }
  }

  /** No deadlock and no lost wakeup: when nothing can move, every command has been completed
      and released, the I/O thread has collected every asynchronous one once and no other, and
      only it sleeps, with nothing to collect. */
  lemma {:induction false} StuckIsDone(s: State, acts: seq<Action>, async: nat -> bool, ids: set<nat>)
    requires Exec(Init(async, ids), acts) == Some(s) && Stuck(s)
    ensures s.subs.Keys == ids && forall id :: id in ids ==> s.subs[id] == Finished
    ensures s.cmds == map[] && s.sent == {} && s.posted == {} && s.irq == Idle
    ensures s.io == Waiting && s.queue == []
    ensures NoRepeats(s.collected) && forall id: nat :: id in s.collected <==> id in ids && async(id)
  {
    hide Inv, Apply, Stuck;
    InitInv(async, ids);
    RunKeeps(Init(async, ids), acts);
    LocksFree(s);
    Moves(s);
    WaitingHasNone(s);
    forall id: nat ensures (id in s.subs ==> s.subs[id] == Finished) && id !in s.cmds { SubmitterAtRest(s, id); }
    SameCommands(Init(async, ids), acts);
    CollectedOnce(s, acts, async, ids);
    assert s.collected + s.queue == s.collected;
  }
}
