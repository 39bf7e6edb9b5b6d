/** Runs of the threads around command objects end: each step takes a command further, or the
    I/O thread further towards sleep. */
module CommandRuns {
  import opened Wrappers
  import opened CommandLocks

  /** How far a submitter has got; a woken thread finds its command completed. */
  function SubRank(p: Sub, completed: bool): nat {
    match p
    case Start => 0
    case Adding => 1
    case Added => 2
    case Allocating => 3
    case Built => 4
    case Sent => 5
    case Looking => if completed then 9 else 6
    case Asleep => 7
    case Woken => 8
    case Seen => 10
    case Removing => 11
    case Freeing => 12
    case Finished => 13
  }

  function IrqRank(p: Irq): nat {
    match p
    case Idle => 16
    case Want(_) => 3
    case Find(_) => 4
    case Handle(_) => 5
    case Call(_) => 6
    case Called(_) => 11
    case Unlock(_, _) => 12
    case Release(_) => 13
    case Erase(_) => 14
    case Free(_) => 15
  }

  predicate Unsent(p: Sub) {
    p == Start || p == Adding || p == Added || p == Allocating || p == Built
  }

  /** How far its completion has got. */
  function Stage(s: State, id: nat): nat {
    if id in s.sent then 1
    else if id in s.posted then 2
    else if WorkOn(s.irq, id) != NoWork then IrqRank(s.irq)
    else if Unsent(Pc(s, id)) then 0
    else 16
  }

  function Term(s: State, id: nat): nat {
    SubRank(Pc(s, id), Entry(s, id) == Some(true)) + Stage(s, id)
  }

  /** A wakeup sends the I/O thread back; handling a completion is worth more than that. */
  function IoRank(io: Io, empty: bool): nat {
    match io
    case Outside => if empty then 2 else 0
    case Checking => if empty then 3 else 1
    case Waiting => 4
    case Notified => if empty then 2 else 0
  }

  ghost function Sum(f: nat -> nat, ids: set<nat>): nat
    decreases |ids|
  {
    if ids == {} then 0
    else
      var i :| i in ids;
      f(i) + Sum(f, ids - {i})
  }

  lemma {:induction false} SumTake(f: nat -> nat, ids: set<nat>, i: nat)
    requires i in ids
    ensures Sum(f, ids) == f(i) + Sum(f, ids - {i})
    decreases |ids|
  {
    var j :| j in ids && Sum(f, ids) == f(j) + Sum(f, ids - {j});
    if i != j {
      SumTake(f, ids - {j}, i);
      SumTake(f, ids - {i}, j);
      assert ids - {j} - {i} == ids - {i} - {j};
    }
  }

  lemma {:induction false} SumSame(f: nat -> nat, g: nat -> nat, ids: set<nat>)
    requires forall i :: i in ids ==> f(i) == g(i)
    ensures Sum(f, ids) == Sum(g, ids)
    decreases |ids|
  {
    if ids != {} {
      var i :| i in ids;
      SumTake(f, ids, i);
      SumTake(g, ids, i);
      SumSame(f, g, ids - {i});
    }
  }

  lemma {:induction false} SumBounded(f: nat -> nat, ids: set<nat>)
    requires forall i :: i in ids ==> f(i) <= 29
    ensures Sum(f, ids) <= 29 * |ids|
    decreases |ids|
  {
    if ids != {} {
      var i :| i in ids;
      SumTake(f, ids, i);
      SumBounded(f, ids - {i});
      assert |ids - {i}| == |ids| - 1;
    }
  }

  function TermOf(s: State): nat -> nat { (i: nat) => Term(s, i) }

  ghost function Terms(s: State): nat { Sum(TermOf(s), s.subs.Keys) }

  ghost function Total(s: State): nat { Terms(s) + IoRank(s.io, s.queue == []) }

  /** One command's term grew by d, the others stayed. */
  lemma {:induction false} TermGrows(s: State, s': State, id: nat)
    requires id in s.subs && s'.subs.Keys == s.subs.Keys && forall i: nat :: i != id ==> Term(s', i) == Term(s, i)
    ensures Terms(s') == Terms(s) - Term(s, id) + Term(s', id)
  {
    hide SubRank, Stage;
    var f, g := TermOf(s), TermOf(s');
    SumTake(f, s.subs.Keys, id);
    SumTake(g, s.subs.Keys, id);
    SumSame(f, g, s.subs.Keys - {id});
  }

  lemma OthersSame(s: State, s': State, i: nat)
    requires SameFor(s, s', i) && (WorkOn(s.irq, i) != NoWork ==> s'.irq == s.irq)
    ensures Term(s', i) == Term(s, i)
  {
  }

  // ---- every step ----

  lemma SubTermEarly(s: State, id: nat)
    requires Life(s, id) && SubStep(s, id).Some? && Unsent(Pc(s, id))
    ensures Term(SubStep(s, id).value, id) >= Term(s, id) + 1
  {
    hide WorkOn, IrqRank;
  }

  lemma SubTermLate(s: State, id: nat)
    requires Life(s, id) && SubStep(s, id).Some? && !Unsent(Pc(s, id))
    ensures Term(SubStep(s, id).value, id) >= Term(s, id) + 1
  {
    hide WorkOn, IrqRank, Pending;
  }

  lemma {:induction false} SubTerm(s: State, id: nat)
    requires Life(s, id) && SubStep(s, id).Some?
    ensures Term(SubStep(s, id).value, id) >= Term(s, id) + 1
  {
    hide Life, SubStep, Term;
    if Unsent(Pc(s, id)) { SubTermEarly(s, id); } else { SubTermLate(s, id); }
  }

  lemma {:induction false} SubAdvances(s: State, id: nat)
    requires Inv(s) && SubStep(s, id).Some?
    ensures var s' := SubStep(s, id).value; Total(s') >= Total(s) + 1 && s'.subs.Keys == s.subs.Keys
  {
    hide Locks, EachOnce, SubStep, Life, Term, SameFor;
    var s' := SubStep(s, id).value;
    SubFrame(s, id);
    SubOthers(s, id);
    assert Life(s, id);
    SubTerm(s, id);
    forall i: nat | i != id ensures Term(s', i) == Term(s, i) { OthersSame(s, s', i); }
    TermGrows(s, s', id);
  }

  lemma IrqTermEarly(s: State)
    requires HandlerStep(s).Some? && (s.irq.Want? || s.irq.Find? || s.irq.Handle?) && Life(s, Current(s.irq))
    ensures var s' := HandlerStep(s).value; var id := Current(s.irq);
      && Term(s', id) + IoRank(s'.io, s'.queue == []) >= Term(s, id) + IoRank(s.io, s.queue == []) + 1
      && id in s.subs && s'.subs.Keys == s.subs.Keys
  {
    hide IoRank;
  }

  lemma IrqTermLate(s: State)
    requires HandlerStep(s).Some? && s.irq != Idle && !s.irq.Want? && !s.irq.Find? && !s.irq.Handle? && Life(s, Current(s.irq))
    ensures var s' := HandlerStep(s).value; var id := Current(s.irq);
      && Term(s', id) + IoRank(s'.io, s'.queue == []) >= Term(s, id) + IoRank(s.io, s.queue == []) + 1
      && id in s.subs && s'.subs.Keys == s.subs.Keys
  {
  }

  lemma {:induction false} IrqTerm(s: State)
    requires HandlerStep(s).Some? && s.irq != Idle && Life(s, Current(s.irq))
    ensures var s' := HandlerStep(s).value; var id := Current(s.irq);
      && Term(s', id) + IoRank(s'.io, s'.queue == []) >= Term(s, id) + IoRank(s.io, s.queue == []) + 1
      && id in s.subs && s'.subs.Keys == s.subs.Keys
  {
    hide HandlerStep, Life, Term, IoRank;
    if s.irq.Want? || s.irq.Find? || s.irq.Handle? { IrqTermEarly(s); } else { IrqTermLate(s); }
  }

  lemma {:induction false} IrqAdvances(s: State)
    requires Inv(s) && HandlerStep(s).Some?
    ensures var s' := HandlerStep(s).value; Total(s') >= Total(s) + 1 && s'.subs.Keys == s.subs.Keys
  {
    hide Locks, EachOnce, HandlerStep, Life, Term, SameFor, IoRank;
    var s' := HandlerStep(s).value;
    IrqOthers(s);
    var id := Current(s.irq);
    assert Life(s, id);
    IrqTerm(s);
    forall i: nat | i != id ensures Term(s', i) == Term(s, i) {
      NotCurrent(s, i);
      OthersSame(s, s', i);
    }
    TermGrows(s, s', id);
  }

  lemma NotCurrent(s: State, i: nat)
    requires s.irq != Idle && i != Current(s.irq)
    ensures WorkOn(s.irq, i) == NoWork
  {
  }

  lemma {:induction false} OtherAdvances(s: State, a: Action)
    requires Inv(s) && Apply(s, a).Some? && !a.SubmitStep? && a != IrqStep
    ensures var s' := Apply(s, a).value; Total(s') >= Total(s) + 1 && s'.subs.Keys == s.subs.Keys
  {
    hide Locks, EachOnce, HandlerStep, SubStep;
    var s' := Apply(s, a).value;
    if a == IoStep {
      forall i: nat ensures Term(s', i) == Term(s, i) { }
      SumSame(TermOf(s), TermOf(s'), s.subs.Keys);
    } else {
      var id := a.id;
      assert Life(s, id);
      forall i: nat | i != id ensures Term(s', i) == Term(s, i) { }
      TermGrows(s, s', id);
    }
  }

  lemma {:induction false} StepAdvances(s: State, a: Action)
    requires Inv(s) && Apply(s, a).Some?
    ensures var s' := Apply(s, a).value; Total(s') >= Total(s) + 1 && s'.subs.Keys == s.subs.Keys
  {
    hide Inv, Total, SubStep, HandlerStep, WaiterStep;
    if a.SubmitStep? {
      SubAdvances(s, a.id);
    } else if a == IrqStep {
      IrqAdvances(s);
    } else {
      OtherAdvances(s, a);
    }
  }

  lemma TotalBounded(s: State)
    ensures Total(s) <= 29 * |s.subs.Keys| + 4
  {
    forall i | i in s.subs.Keys ensures Term(s, i) <= 29 { }
    SumBounded(TermOf(s), s.subs.Keys);
  }

  /** Every run ends: none has more than 29 steps for each command and four. */
  lemma {:induction false} RunsEnd(s: State, acts: seq<Action>)
    requires Inv(s) && Exec(s, acts).Some?
    ensures |acts| + Total(s) <= 29 * |s.subs.Keys| + 4
    decreases |acts|
  {
    hide Inv, Apply, Total;
    TotalBounded(s);
    if acts != [] {
      StepAdvances(s, acts[0]);
      StepKeeps(s, acts[0]);
      RunsEnd(Apply(s, acts[0]).value, acts[1..]);
    }
  }

  /** So from the start every sequence of enabled steps is bounded, and one that cannot be
      continued has completed and released every command and collected every asynchronous one
      once. */
  lemma {:induction false} RunsFromInitEnd(async: nat -> bool, ids: set<nat>, acts: seq<Action>)
    requires Exec(Init(async, ids), acts).Some?
    ensures |acts| <= 29 * |ids| + 4
    ensures var s := Exec(Init(async, ids), acts).value;
      Stuck(s) ==>
        && s.subs.Keys == ids && (forall id :: id in ids ==> s.subs[id] == Finished) && s.cmds == map[]
        && NoRepeats(s.collected) && (forall id: nat :: id in s.collected <==> id in ids && async(id))
  {
    hide Inv, Apply, Total, Stuck, NoRepeats;
    InitInv(async, ids);
    assert Init(async, ids).subs.Keys == ids;
    RunsEnd(Init(async, ids), acts);
    var s := Exec(Init(async, ids), acts).value;
    if Stuck(s) { StuckIsDone(s, acts, async, ids); }
  }
}
