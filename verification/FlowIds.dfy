/** The 16-bit command ids: exactly which flows never give out an id still in use, and what
    becomes of a request whose id is given to another one. */
module FlowIds {
  import opened Wrappers
  import opened Arena
  import opened Commands
  import opened QueuePair
  import opened FlowModel
  import opened FlowInvariant
  import opened FlowKeeps
  import opened FlowTheorems
  import opened FlowRoom
  import opened FlowLimits

  /** Not more requests than ids, or at most one of them in flight at a time. */
  predicate IdsSafe(c: Config) {
    c.count <= IDS || Min(c.cap, c.avg) <= 1
  }

  /** Whatever is enabled, only free ids are given out. */
  ghost predicate AlwaysFresh(c: Config) {
    forall acts :: Exec(c, Init(c), acts).Some? ==> FreshRun(c, Init(c), acts)
  }

  // ---- one command at a time ----

  ghost predicate InOrder(h: History) {
    forall j :: 0 <= j < |h.posted| ==> h.posted[j].tag == j
  }

  lemma InFlightAtMost(c: Config, s: State)
    requires Groups(c, s)
    ensures Dispatched(s.h, s.sub) - s.eng.completed <= Min(c.cap, c.avg)
    ensures s.h.fetched <= Dispatched(s.h, s.sub) && s.eng.completed <= |s.h.posted| && ReleasedN(s.h, s.irq) <= |s.h.posted|
  {
    hide Holding, Table, Describing, Serving, Interrupting, Related;
    StagesOrdered(c, s);
    CountsBounded(c, s);
  }

  /** With one command in flight, completions come in the order of submission. */
  lemma {:induction false} NarrowPost(c: Config, s: State, x: Sqe)
    requires Groups(c, s) && Min(c.cap, c.avg) <= 1 && InOrder(s.h) && x in s.dev.held
    ensures x.tag == |s.h.posted|
  {
    hide Holding, Table, Describing, Pacing, Interrupting, Related, Delivery;
    InFlightAtMost(c, s);
    assert FetchedEntry(s.h, x);
    forall j | 0 <= j < |s.h.posted| ensures s.h.posted[j].tag != x.tag {
      assert FetchedEntry(s.h, s.h.posted[j]);
    }
    if x.tag < |s.h.posted| { TagAt(s.h, x.tag); }
  }

  lemma TagAt(h: History, j: nat)
    requires InOrder(h) && j < |h.posted|
    ensures h.posted[j].tag == j
  {
  }

  lemma PostedBy(c: Config, s: State, a: Action)
    requires Apply(c, s, a).Some?
    ensures Apply(c, s, a).value.h.posted == if a.DevPost? then s.h.posted + [a.c] else s.h.posted
    ensures a.DevPost? ==> a.c in s.dev.held
  {
    hide BuildList, TakeBuffer, GiveBuffer, GivePages, WriteSqe, Fetch, Post;
  }

  lemma {:induction false} NarrowFresh(c: Config, s: State)
    requires Groups(c, s) && Min(c.cap, c.avg) <= 1 && InOrder(s.h)
    ensures FreshId(s)
  {
    hide Groups, FreshId;
    InFlightAtMost(c, s);
    CountsBounded(c, s);
    var issued, k := Issued(s.h, s.sub), ReleasedN(s.h, s.irq);
    forall n: nat | n < k ensures Gone(s.h.posted, k, n) { assert s.h.posted[n].tag == n; }
    FreshInWindow(c, s);
  }

  lemma {:induction false} NarrowRun(c: Config, s: State, acts: seq<Action>)
    requires GoodConfig(c) && QueueRoom(c) && Min(c.cap, c.avg) <= 1
    requires Inv(c, s) && InOrder(s.h) && Exec(c, s, acts).Some?
    ensures FreshRun(c, s, acts)
    decreases |acts|
  {
    hide GoodConfig, QueueRoom, Groups, FreshId, Apply;
    if acts != [] {
      var a := acts[0];
      var s' := Apply(c, s, a).value;
      EnabledRunning(c, s, a);
      NarrowFresh(c, s);
      StepKeeps(c, s, a);
      PostedBy(c, s, a);
      if a.DevPost? { NarrowPost(c, s, a.c); }
      NarrowRun(c, s', acts[1..]);
    }
  }

  lemma EnabledRunning(c: Config, s: State, a: Action)
    requires Inv(c, s) && Apply(c, s, a).Some?
    ensures Groups(c, s) && s.status == Running
  {
    hide Groups, ThreadStep, SubmitStep, DeviceStep, IrqStep;
  }

  lemma {:induction false} SafeIsFresh(c: Config, acts: seq<Action>)
    requires GoodConfig(c) && QueueRoom(c) && IdsSafe(c) && Exec(c, Init(c), acts).Some?
    ensures FreshRun(c, Init(c), acts)
  {
    hide GoodConfig, QueueRoom, Groups, FreshRun, Exec;
    InitInv(c);
    if c.count <= IDS {
      FewRequests(c);
      SmallIsFresh(c, Init(c), acts);
    } else {
      NarrowRun(c, Init(c), acts);
    }
  }

  // ---- withholding the first command ----

  ghost predicate Withheld(h: History) {
    forall j :: 0 <= j < |h.posted| ==> h.posted[j].tag != 0
  }

  /** A flow with two commands in flight and more requests than ids, whose device keeps the
      first command to itself. */
  ghost predicate Wide(c: Config) {
    IDS < c.count && 2 <= c.avg && 2 <= c.cap
  }

  ghost predicate Keeping(c: Config, s: State) {
    Groups(c, s) && s.status == Running && Withheld(s.h) && Issued(s.h, s.sub) <= IDS
  }

  /** The thread is about to register command number 65536. */
  predicate Clash(s: State) {
    s.sub.Setup? && Issued(s.h, s.sub) == IDS
  }

  /** The first command alone does not stop the flow before that. */
  lemma {:induction false} ThreadMustMove(c: Config, s: State)
    requires Wide(c) && Keeping(c, s) && Quiet(c, s, {0}) && s.sub == NoSub
    ensures !s.eng.running || s.eng.post || s.eng.batch != [] || (s.done != [] && s.eng.completed < c.count)
  {
    hide Holding, Table, Describing, Related, Interrupting, Quiet, Withheld;
    QuietIrq(c, s, {0});
    QuietDevice(c, s, {0});
    OnlyFirstHeld(s.h, s.dev.held);
    StagesOrdered(c, s);
  }

  lemma OnlyFirstHeld(h: History, held: set<Sqe>)
    requires Serving(h, held) && forall x :: x in held ==> x.tag in {0}
    ensures |held| <= 1
  {
    if held != {} {
      var y :| y in held;
      assert FetchedEntry(h, y);
      forall x | x in held ensures x == y { assert FetchedEntry(h, x); }
      SubsetSize(held, {y});
    }
  }

  lemma SomeOther(c: Config, s: State) returns (a: Action)
    requires !Quiet(c, s, {0})
    ensures Apply(c, s, a).Some? && Outside(a) && !(a.DevPost? && a.c.tag == 0)
  {
    hide Apply;
    a :| Outside(a) && !(a.DevPost? && a.c.tag in {0}) && !Apply(c, s, a).None?;
  }

  lemma EarlyFresh(c: Config, s: State)
    requires Groups(c, s) && Issued(s.h, s.sub) < IDS
    ensures FreshId(s)
  {
    hide Groups, FreshId, Alive;
    FreshInWindow(c, s);
  }

  /** The next step of such a run. */
  lemma {:induction false} KeepingStep(c: Config, s: State) returns (a: Action)
    requires Wide(c) && Keeping(c, s) && !Clash(s)
    ensures Apply(c, s, a).Some? && (a == SetupCmd ==> FreshId(s) && Issued(s.h, s.sub) < IDS)
    ensures !(a.DevPost? && a.c.tag == 0)
  {
    hide Groups, Apply, Quiet, FreshId, Withheld;
    if Quiet(c, s, {0}) {
      if s.sub == NoSub { ThreadMustMove(c, s); }
      OwnEnabled(c, s);
      a := NextOwn(c, s);
      if s.sub.Setup? { EarlyFresh(c, s); }
    } else {
      a := SomeOther(c, s);
    }
  }

  lemma IssuedBy(c: Config, s: State, a: Action)
    requires Apply(c, s, a).Some?
    ensures Issued(Apply(c, s, a).value.h, Apply(c, s, a).value.sub)
            == Issued(s.h, s.sub) + (if a == SetupCmd then 1 else 0)
            || Apply(c, s, a).value.status != Running
  {
    hide BuildList, TakeBuffer, GiveBuffer, GivePages, Fetch, Post;
  }

  lemma {:induction false} KeepingKeeps(c: Config, most: nat, s: State, a: Action)
    requires GoodConfig(c) && QueueRoom(c) && Roomy(c, most) && Keeping(c, s) && Apply(c, s, a).Some?
    requires (a == SetupCmd ==> FreshId(s) && Issued(s.h, s.sub) < IDS) && !(a.DevPost? && a.c.tag == 0)
    ensures Keeping(c, Apply(c, s, a).value)
  {
    hide GoodConfig, QueueRoom, Roomy, Groups, FreshId, Apply;
    StepKeeps(c, s, a);
    StepStaysRunning(c, most, s, a);
    InvRunning(c, Apply(c, s, a).value);
    PostedBy(c, s, a);
    IssuedBy(c, s, a);
  }

  /** A run to the point where the ids are used up. */
  lemma {:induction false} RunToClash(c: Config, most: nat, s: State) returns (acts: seq<Action>)
    requires GoodConfig(c) && QueueRoom(c) && Roomy(c, most) && Wide(c) && Keeping(c, s)
    ensures FreshRun(c, s, acts) && Exec(c, s, acts).Some?
    ensures Keeping(c, Exec(c, s, acts).value) && Clash(Exec(c, s, acts).value)
    decreases c.avg + 18 * Largest(c) + 3 - Progress(s)
  {
    hide Groups, GoodConfig, QueueRoom, Roomy, Apply, FreshId, Progress, Withheld, Clash;
    acts := [];
    if !Clash(s) {
      var a := KeepingStep(c, s);
      var s' := Apply(c, s, a).value;
      KeepingKeeps(c, most, s, a);
      StepAdvances(c, s, a);
      ProgressBounded(c, s');
      var rest := RunToClash(c, most, s');
      acts := [a] + rest;
      assert acts[1..] == rest;
    }
  }

  // ---- the clash ----

  /** Request 0 is sent, has not been called back, and no command carries its callback. */
  ghost predicate Forgotten(s: State) {
    && 0 < s.eng.submitted && 0 !in s.eng.waiting && (s.sub.Setup? ==> s.sub.r != 0)
    && 0 !in s.log && forall id :: id in s.cmds ==> s.cmds[id].callback != Some(0)
  }

  /** The id about to be given out is that of request 0, which is still outstanding; giving it
      out drops request 0's callback. */
  lemma {:induction false} ClashForgets(c: Config, s: State)
    requires Keeping(c, s) && Clash(s)
    ensures s.idCounter in s.cmds && s.cmds[s.idCounter].callback == Some(0) && 0 !in s.log && !FreshId(s)
    ensures Apply(c, s, SetupCmd).Some? && Forgotten(Apply(c, s, SetupCmd).value)
  {
    hide Holding, Describing, Related, Interrupting, Serving;
    assert !Gone(s.h.posted, ReleasedN(s.h, s.irq), 0);
    assert Alive(Issued(s.h, s.sub), s.h.posted, ReleasedN(s.h, s.irq), 0);
    assert Listed(c, s.cmds, s.mem.live, 0);
    SameIdAfterLap(c);
  }

  lemma SameIdAfterLap(c: Config)
    ensures IdOf(c, IDS) == IdOf(c, 0)
  {
  }

  lemma ForgottenStays(c: Config, s: State, a: Action)
    requires Forgotten(s) && Apply(c, s, a).Some?
    ensures Forgotten(Apply(c, s, a).value)
  {
    hide ThreadStep, SubmitStep, DeviceStep, IrqStep;
    ForgottenThread(c, s, a);
    ForgottenSubmit(c, s, a);
    ForgottenIrq(s, a);
  }

  lemma ForgottenThread(c: Config, s: State, a: Action)
    requires Forgotten(s)
    ensures ThreadStep(c, s, a).Some? ==> Forgotten(ThreadStep(c, s, a).value)
  {
    hide TakeBuffer, GiveBuffer;
  }

  lemma ForgottenSubmit(c: Config, s: State, a: Action)
    requires Forgotten(s)
    ensures SubmitStep(c, s, a).Some? ==> Forgotten(SubmitStep(c, s, a).value)
    ensures DeviceStep(s, a).Some? ==> Forgotten(DeviceStep(s, a).value)
  {
    hide BuildList, WriteSqe, Fetch, Post;
  }

  lemma ForgottenIrq(s: State, a: Action)
    requires Forgotten(s)
    ensures IrqStep(s, a).Some? ==> Forgotten(IrqStep(s, a).value)
  {
    hide GivePages;
  }

  /** Request 0 is never called back, whatever happens then. */
  lemma {:induction false} ForgottenForGood(c: Config, s: State, acts: seq<Action>)
    requires Forgotten(s) && Exec(c, s, acts).Some?
    ensures Forgotten(Exec(c, s, acts).value)
    decreases |acts|
  {
    hide Apply, Forgotten;
    if acts != [] {
      ForgottenStays(c, s, acts[0]);
      ForgottenForGood(c, Apply(c, s, acts[0]).value, acts[1..]);
    }
  }

  lemma InitKeeping(c: Config)
    requires Inv(c, Init(c))
    ensures Keeping(c, Init(c))
  {
    hide Groups;
  }

  lemma {:induction false} FreshSuffix(c: Config, s: State, a: seq<Action>, b: seq<Action>)
    requires Exec(c, s, a).Some? && FreshRun(c, s, a + b)
    ensures FreshRun(c, Exec(c, s, a).value, b)
    decreases |a|
  {
    hide Apply, FreshId;
    if a == [] {
      assert a + b == b;
    } else {
      assert (a + b)[0] == a[0] && (a + b)[1..] == a[1..] + b;
      FreshSuffix(c, Apply(c, s, a[0]).value, a[1..], b);
    }
  }

  /** With two commands in flight and more requests than ids, an enabled run gives the id of a
      command still outstanding to another one, and its request is never called back. */
  lemma {:induction false} IdsClash(c: Config, most: nat) returns (acts: seq<Action>)
    requires GoodConfig(c) && QueueRoom(c) && Roomy(c, most) && !IdsSafe(c)
    ensures Exec(c, Init(c), acts).Some? && !FreshRun(c, Init(c), acts)
    ensures forall more :: Exec(c, Init(c), acts + more).Some? ==> Forgotten(Exec(c, Init(c), acts + more).value)
  {
    hide Groups, GoodConfig, QueueRoom, Roomy, Apply, FreshId, Init, Withheld, Clash, Forgotten, Exec, FreshRun;
    InitInv(c);
    InitKeeping(c);
    var first := RunToClash(c, most, Init(c));
    var s := Exec(c, Init(c), first).value;
    ClashForgets(c, s);
    ExecOne(c, s, SetupCmd);
    ExecAppend(c, Init(c), first, [SetupCmd]);
    acts := first + [SetupCmd];
    if FreshRun(c, Init(c), acts) {
      FreshSuffix(c, Init(c), first, [SetupCmd]);
      FreshHead(c, s, SetupCmd);
    }
    var s' := Exec(c, Init(c), acts).value;
    forall more | Exec(c, Init(c), acts + more).Some? ensures Forgotten(Exec(c, Init(c), acts + more).value) {
      ExecAppend(c, Init(c), acts, more);
      ForgottenForGood(c, s', more);
    }
  }

  lemma FreshHead(c: Config, s: State, a: Action)
    requires FreshRun(c, s, [a])
    ensures a == SetupCmd ==> FreshId(s)
  {
    hide Apply, FreshId;
  }

  /** Exactly the flows that satisfy IdsSafe give out free ids in every run. */
  lemma {:induction false} IdsSafeExactly(c: Config, most: nat)
    requires GoodConfig(c) && QueueRoom(c) && Roomy(c, most)
    ensures AlwaysFresh(c) <==> IdsSafe(c)
  {
    hide GoodConfig, QueueRoom, Roomy, Exec, Init, FreshRun, IdsSafe, Forgotten;
    if IdsSafe(c) {
      forall acts | Exec(c, Init(c), acts).Some? ensures FreshRun(c, Init(c), acts) { SafeIsFresh(c, acts); }
    } else {
      var acts := IdsClash(c, most);
      assert Exec(c, Init(c), acts).Some? && !FreshRun(c, Init(c), acts);
    }
  }

  /** The capstone without a hypothesis on ids: in such a flow any sequence of enabled steps is
      a run, stays running, and at its end is finished exactly if the configuration Ends. */
  lemma {:induction false} SafeFlowCompletes(c: Config, most: nat, acts: seq<Action>)
    requires GoodConfig(c) && QueueRoom(c) && Roomy(c, most) && IdsSafe(c) && Exec(c, Init(c), acts).Some?
    ensures var s := Exec(c, Init(c), acts).value;
      && s.status == Running && (Stuck(c, s) ==> (Finished(c, s) <==> Ends(c)))
      && |acts| <= c.avg + 18 * Largest(c) + 2
  {
    hide GoodConfig, QueueRoom, Roomy, IdsSafe, FreshRun, Exec, Init, Finished, Ends, Stuck;
    SafeIsFresh(c, acts);
    FlowCompletes(c, most, acts);
    RunsFromInitEnd(c, acts);
  }
}
