/** The driver's table of outstanding commands, by 16-bit command id. */
module Commands {
  import opened Wrappers
  import opened HoleList
  import opened Memory
  import opened QueuePair
  import opened Arena
  import Prp
  import SlotTable

  const IDS: nat := 0x1_0000

  /** An outstanding command.  With a callback it is asynchronous, otherwise a thread waits
      for `completed`.  Its PRP list pages are freed with it. */
  datatype AsyncCommand = AsyncCommand(id: nat, completed: bool, callback: Option<nat>, prpLists: seq<nat>)

  type CommandMap = map<nat, AsyncCommand>

  /** setup_async_command: an id still in the map keeps its entry, and the entry is overwritten. */
  function SetupCommand(m: CommandMap, id: nat, callback: Option<nat>): CommandMap {
    m[id := AsyncCommand(id, false, callback, if id in m then m[id].prpLists else [])]
  }

  /** What handle_cqe runs: nothing for an unknown id, the callback if there is one. */
  function Callback(m: CommandMap, id: nat): Option<nat> {
    if id in m then m[id].callback else None
  }

  /** What handle_cqe leaves in the map: a command with a callback goes, another is marked. */
  function Completed(m: CommandMap, id: nat): CommandMap {
    if id !in m then m
    else if m[id].callback.Some? then m - {id}
    else m[id := m[id].(completed := true)]
  }

  /** The callbacks run and the map left by handling completions in order. */
  function Fired(m: CommandMap, cs: seq<Sqe>): seq<nat>
    decreases |cs|
  {
    if cs == [] then []
    else (match Callback(m, cs[0].cid) case Some(t) => [t] case None => []) + Fired(Completed(m, cs[0].cid), cs[1..])
  }

  function AllCompleted(m: CommandMap, cs: seq<Sqe>): CommandMap
    decreases |cs|
  {
    if cs == [] then m else AllCompleted(Completed(m, cs[0].cid), cs[1..])
  }

  lemma {:induction false} FiredSnoc(m: CommandMap, cs: seq<Sqe>, c: Sqe)
    ensures var m' := AllCompleted(m, cs);
      && AllCompleted(m, cs + [c]) == Completed(m', c.cid)
      && Fired(m, cs + [c]) == Fired(m, cs) + (match Callback(m', c.cid) case Some(t) => [t] case None => [])
    decreases |cs|
  {
    if cs == [] {
      assert [c][1..] == [];
    } else {
      assert (cs + [c])[1..] == cs[1..] + [c];
      FiredSnoc(Completed(m, cs[0].cid), cs[1..], c);
    }
  }

  /** Registering a command under a free id adds one entry and leaves the others alone;
      under an id in use it replaces that command's callback, which then never runs. */
  lemma {:induction false} SetupIsFreshExactly(m: CommandMap, id: nat, callback: Option<nat>)
    requires callback.Some?
    requires forall i :: i in m ==> m[i].callback != callback
    ensures (forall i :: i in m ==> i in SetupCommand(m, id, callback) && SetupCommand(m, id, callback)[i] == m[i])
            <==> id !in m
  {
    if id in m {
      assert SetupCommand(m, id, callback)[id].callback == callback;
    }
  }

  /** Every completion of a distinct live asynchronous command runs its callback, in order. */
  lemma {:induction false} DistinctAllFire(m: CommandMap, cs: seq<Sqe>)
    requires DistinctIds(cs) && forall i :: 0 <= i < |cs| ==> cs[i].cid in m && m[cs[i].cid].callback.Some?
    ensures |Fired(m, cs)| == |cs|
    ensures forall i :: 0 <= i < |cs| ==> m[cs[i].cid].callback == Some(Fired(m, cs)[i])
    ensures AllCompleted(m, cs) == m - (set i | 0 <= i < |cs| :: cs[i].cid)
    decreases |cs|
  {
    if cs != [] {
      hide Fired, AllCompleted;
      var m' := Completed(m, cs[0].cid);
      assert forall i :: 0 <= i < |cs| - 1 ==> cs[1..][i] == cs[i + 1];
      DistinctAllFire(m', cs[1..]);
      FiredCons(m, cs);
      IdsOf(cs);
    }
  }

  // ---- what completions do, command by command ----

  ghost predicate Mentions(cs: seq<Sqe>, id: nat) {
    exists i :: 0 <= i < |cs| && cs[i].cid == id
  }

  /** A command somebody waits for stays, and is marked completed exactly if one of the
      completions is its own. */
  ghost predicate WaiterMarked(m: CommandMap, m': CommandMap, cs: seq<Sqe>, id: nat)
    requires id in m
  {
    && id in m' && m'[id].id == m[id].id && m'[id].callback == None && m'[id].prpLists == m[id].prpLists
    && (m'[id].completed <==> m[id].completed || Mentions(cs, id))
  }

  /** One with a callback is erased exactly if one of the completions is its own. */
  ghost predicate CallbackErased(m: CommandMap, m': CommandMap, cs: seq<Sqe>, id: nat)
    requires id in m
  {
    if Mentions(cs, id) then id !in m' else id in m' && m'[id] == m[id]
  }

  /** What the map m became by the completions cs. */
  ghost predicate Handled(m: CommandMap, m': CommandMap, cs: seq<Sqe>) {
    && (forall id :: id in m && m[id].callback == None ==> WaiterMarked(m, m', cs, id))
    && (forall id :: id in m && m[id].callback.Some? ==> CallbackErased(m, m', cs, id))
    && (forall id :: id in m' ==> id in m)
  }

  lemma HandledOne(m: CommandMap, c: Sqe)
    ensures Handled(m, Completed(m, c.cid), [c])
  {
    var m' := Completed(m, c.cid);
    assert forall id :: Mentions([c], id) <==> id == c.cid by { assert [c][0] == c; }
    forall id | id in m && m[id].callback == None ensures WaiterMarked(m, m', [c], id) { }
    forall id | id in m && m[id].callback.Some? ensures CallbackErased(m, m', [c], id) { }
  }

  lemma MentionsCons(cs: seq<Sqe>)
    requires cs != []
    ensures forall id :: Mentions(cs, id) <==> id == cs[0].cid || Mentions(cs[1..], id)
  {
    forall id ensures Mentions(cs, id) <==> id == cs[0].cid || Mentions(cs[1..], id) {
      if Mentions(cs, id) {
        var i :| 0 <= i < |cs| && cs[i].cid == id;
        assert 0 < i ==> cs[1..][i - 1].cid == id;
      }
      if Mentions(cs[1..], id) {
        var i :| 0 <= i < |cs[1..]| && cs[1..][i].cid == id;
        assert cs[i + 1].cid == id;
      }
    }
  }

  /** Any completions, for commands with and without a callback mixed, whatever is in the map. */
  lemma {:induction false} CompletionsHandled(m: CommandMap, cs: seq<Sqe>)
    ensures Handled(m, AllCompleted(m, cs), cs)
    decreases |cs|
  {
    if cs != [] {
      hide Mentions, Completed;
      var m1, m' := Completed(m, cs[0].cid), AllCompleted(m, cs);
      HandledOne(m, cs[0]);
      assert forall id :: Mentions([cs[0]], id) <==> id == cs[0].cid by { MentionsOne(cs[0]); }
      CompletionsHandled(m1, cs[1..]);
      MentionsCons(cs);
      forall id | id in m && m[id].callback == None ensures WaiterMarked(m, m', cs, id) {
        assert WaiterMarked(m, m1, [cs[0]], id);
        assert WaiterMarked(m1, m', cs[1..], id);
      }
      forall id | id in m && m[id].callback.Some? ensures CallbackErased(m, m', cs, id) {
        assert CallbackErased(m, m1, [cs[0]], id);
      }
    }
  }

  lemma MentionsOne(c: Sqe)
    ensures forall id :: Mentions([c], id) <==> id == c.cid
  {
    assert [c][0] == c;
  }

  /** The callbacks the commands completed had at first. */
  ghost function CallbacksOf(m: CommandMap, cs: seq<Sqe>): seq<nat>
    decreases |cs|
  {
    if cs == [] then []
    else if cs[0].cid in m && m[cs[0].cid].callback.Some? then [m[cs[0].cid].callback.value] + CallbacksOf(m, cs[1..])
    else CallbacksOf(m, cs[1..])
  }

  lemma {:induction false} CallbacksSame(m: CommandMap, m': CommandMap, cs: seq<Sqe>)
    requires forall i :: 0 <= i < |cs| ==> Callback(m', cs[i].cid) == Callback(m, cs[i].cid)
    ensures CallbacksOf(m', cs) == CallbacksOf(m, cs)
    decreases |cs|
  {
    if cs != [] { CallbacksSame(m, m', cs[1..]); }
  }

  ghost predicate DistinctIds(cs: seq<Sqe>) {
    forall i, j :: 0 <= i < j < |cs| ==> cs[i].cid != cs[j].cid
  }

  /** With distinct ids exactly these run, once each and in order of completion. */
  lemma {:induction false} FiredExactly(m: CommandMap, cs: seq<Sqe>)
    requires DistinctIds(cs)
    ensures Fired(m, cs) == CallbacksOf(m, cs)
    decreases |cs|
  {
    if cs != [] {
      var m1 := Completed(m, cs[0].cid);
      FiredExactly(m1, cs[1..]);
      CallbacksSame(m, m1, cs[1..]);
    }
  }

  lemma FiredCons(m: CommandMap, cs: seq<Sqe>)
    requires cs != [] && Callback(m, cs[0].cid).Some?
    ensures Fired(m, cs) == [Callback(m, cs[0].cid).value] + Fired(Completed(m, cs[0].cid), cs[1..])
    ensures AllCompleted(m, cs) == AllCompleted(Completed(m, cs[0].cid), cs[1..])
  {
  }

  lemma IdsOf(cs: seq<Sqe>)
    requires cs != []
    ensures (set i | 0 <= i < |cs| :: cs[i].cid) == {cs[0].cid} + (set i | 0 <= i < |cs[1..]| :: cs[1..][i].cid)
  {
    var ids, ids' := set i | 0 <= i < |cs| :: cs[i].cid, set i | 0 <= i < |cs[1..]| :: cs[1..][i].cid;
    forall x | x in ids ensures x == cs[0].cid || x in ids' {
      var i :| 0 <= i < |cs| && cs[i].cid == x;
      assert 0 < i ==> cs[1..][i - 1].cid == x;
    }
    forall x | x in ids' ensures x in ids {
      var i :| 0 <= i < |cs| - 1 && cs[1..][i].cid == x;
      assert cs[i + 1].cid == x;
    }
  }

  // ---- the PRP list pages commands own ----

  ghost predicate PageUsed(hs: seq<Hole>, p: nat) {
    p % PAGE == 0 && p + PAGE < LIMIT32 && RangeUsed(hs, p, PAGE)
  }

  ghost predicate HasPage(m: CommandMap, id: nat, i: nat) {
    id in m && i < |m[id].prpLists|
  }

  ghost function PageOf(m: CommandMap, id: nat, i: nat): nat
    requires HasPage(m, id, i)
  {
    m[id].prpLists[i]
  }

  /** Every command's list pages are in use, and no page is listed twice. */
  ghost predicate Owned(m: CommandMap, hs: seq<Hole>) {
    && (forall id, i :: HasPage(m, id, i) ==> PageUsed(hs, PageOf(m, id, i)))
    && (forall id, i, id', i' :: HasPage(m, id, i) && HasPage(m, id', i') && (id != id' || i != i') ==>
          PageOf(m, id, i) != PageOf(m, id', i'))
  }

  /** Page p is listed by none. */
  ghost predicate Unlisted(m: CommandMap, p: nat) {
    forall id, i :: HasPage(m, id, i) ==> PageOf(m, id, i) != p
  }

  /** A fresh list page: in use afterwards, and none of the pages in use before. */
  lemma NewPage(hs: seq<Hole>)
    requires Canonical(hs) && Within32(hs) && FitIndex(hs, PAGE, PAGE) < |hs|
    ensures var k := FitIndex(hs, PAGE, PAGE);
      var p, hs' := AllocAddr(hs[k], PAGE), Carve(hs, k, PAGE, PAGE);
      PageUsed(hs', p) && forall q :: PageUsed(hs, q) ==> PageUsed(hs', q) && q != p
  {
    var k := FitIndex(hs, PAGE, PAGE);
    var p, hs' := AllocAddr(hs[k], PAGE), Carve(hs, k, PAGE, PAGE);
    AllocatedRange(hs, k, PAGE, PAGE);
    LeastAligned(hs[k].base, PAGE, 0);
    assert Free(hs, p);
    forall q: nat | PageUsed(hs, q) ensures PageUsed(hs', q) && q != p {
      assert q <= q < q + PAGE;
    }
  }

  /** Freeing one page leaves the other pages in use. */
  lemma ReleaseOther(hs: seq<Hole>, p: nat)
    requires Canonical(hs) && PageUsed(hs, p)
    ensures forall q :: PageUsed(hs, q) && q != p ==> PageUsed(Release(hs, p, PAGE), q)
  {
    ReleaseExact(hs, p, PAGE);
  }

  lemma OwnedMore(m: CommandMap, hs: seq<Hole>, id: nat, p: nat, hs': seq<Hole>)
    requires Owned(m, hs) && id in m && PageUsed(hs', p)
    requires forall q :: PageUsed(hs, q) ==> PageUsed(hs', q) && q != p
    ensures Owned(m[id := m[id].(prpLists := m[id].prpLists + [p])], hs')
  {
    var m' := m[id := m[id].(prpLists := m[id].prpLists + [p])];
    forall j, i | HasPage(m', j, i)
      ensures if HasPage(m, j, i) then PageOf(m', j, i) == PageOf(m, j, i) && PageUsed(hs, PageOf(m, j, i))
              else j == id && i == |m[id].prpLists| && PageOf(m', j, i) == p
    {
    }
  }

  lemma OwnedFewer(m: CommandMap, hs: seq<Hole>, id: nat)
    requires Owned(m, hs) && id in m
    ensures Owned(m - {id}, hs)
    ensures forall i :: 0 <= i < |m[id].prpLists| ==> PageUsed(hs, m[id].prpLists[i]) && Unlisted(m - {id}, m[id].prpLists[i])
  {
    forall j, i | HasPage(m - {id}, j, i) ensures HasPage(m, j, i) && PageOf(m - {id}, j, i) == PageOf(m, j, i) { }
    forall i | 0 <= i < |m[id].prpLists|
      ensures PageUsed(hs, m[id].prpLists[i]) && Unlisted(m - {id}, m[id].prpLists[i])
    {
      assert HasPage(m, id, i) && PageOf(m, id, i) == m[id].prpLists[i];
    }
  }

  lemma OwnedRelease(m: CommandMap, hs: seq<Hole>, p: nat)
    requires Owned(m, hs) && Canonical(hs) && PageUsed(hs, p) && Unlisted(m, p)
    ensures Owned(m, Release(hs, p, PAGE))
  {
    ReleaseOther(hs, p);
  }

  /** Commands that list the same pages. */
  lemma OwnedSame(m: CommandMap, m': CommandMap, hs: seq<Hole>)
    requires Owned(m, hs)
    requires forall id :: id in m' ==> m'[id].prpLists == if id in m then m[id].prpLists else []
    ensures Owned(m', hs)
  {
    forall id, i | HasPage(m', id, i) ensures HasPage(m, id, i) && PageOf(m', id, i) == PageOf(m, id, i) { }
  }

  /** The frees of a command's destructor; None is the abort. */
  function GivePages(hs: seq<Hole>, ps: seq<nat>): Option<seq<Hole>>
    decreases |ps|
  {
    if ps == [] then Some(hs)
    else if |hs| >= SlotTable.NR_HOLES then None
    else GivePages(Release(hs, ps[0], PAGE), ps[1..])
  }

  /** Pages in use, each listed once here and by no command of m. */
  ghost predicate FreeablePages(m: CommandMap, hs: seq<Hole>, ps: seq<nat>) {
    && (forall i :: 0 <= i < |ps| ==> PageUsed(hs, ps[i]) && Unlisted(m, ps[i]))
    && (forall i, j :: 0 <= i < j < |ps| ==> ps[i] != ps[j])
  }

  lemma OwnedDistinct(m: CommandMap, hs: seq<Hole>, id: nat)
    requires Owned(m, hs) && id in m
    ensures FreeablePages(m - {id}, hs, m[id].prpLists)
  {
    OwnedFewer(m, hs, id);
    var ps := m[id].prpLists;
    forall i, j | 0 <= i < j < |ps| ensures ps[i] != ps[j] {
      assert HasPage(m, id, i) && HasPage(m, id, j);
      assert PageOf(m, id, i) == ps[i] && PageOf(m, id, j) == ps[j];
    }
  }

  lemma FreeableNext(m: CommandMap, hs: seq<Hole>, ps: seq<nat>)
    requires Canonical(hs) && Owned(m, hs) && ps != [] && FreeablePages(m, hs, ps)
    ensures PageUsed(hs, ps[0])
    ensures Owned(m, Release(hs, ps[0], PAGE))
    ensures FreeablePages(m, Release(hs, ps[0], PAGE), ps[1..])
  {
    OwnedRelease(m, hs, ps[0]);
    ReleaseOther(hs, ps[0]);
    var rest := ps[1..];
    forall i | 0 <= i < |rest| ensures PageUsed(Release(hs, ps[0], PAGE), rest[i]) && Unlisted(m, rest[i]) {
      assert rest[i] == ps[i + 1];
    }
  }

  // ---- taking list pages ----

  /** The holes after the pages ps were allocated one after the other; None if first fit does
      not hand out exactly those. */
  function TakePages(hs: seq<Hole>, ps: seq<nat>): Option<seq<Hole>>
    decreases |ps|
  {
    if ps == [] then Some(hs)
    else
      var k := FitIndex(hs, PAGE, PAGE);
      if k < |hs| && AllocAddr(hs[k], PAGE) == ps[0] then TakePages(Carve(hs, k, PAGE, PAGE), ps[1..]) else None
  }

  /** One page more. */
  lemma {:induction false} TakePagesSnoc(hs: seq<Hole>, ps: seq<nat>, hs': seq<Hole>, p: nat)
    requires TakePages(hs, ps) == Some(hs')
    ensures TakePages(hs, ps + [p]) == TakePages(hs', [p])
    decreases |ps|
  {
    if ps == [] {
      assert ps + [p] == [p];
    } else {
      assert (ps + [p])[0] == ps[0] && (ps + [p])[1..] == ps[1..] + [p];
      var k := FitIndex(hs, PAGE, PAGE);
      TakePagesSnoc(Carve(hs, k, PAGE, PAGE), ps[1..], hs', p);
    }
  }

  lemma TakeOnePage(hs: seq<Hole>)
    requires FitIndex(hs, PAGE, PAGE) < |hs|
    ensures var k := FitIndex(hs, PAGE, PAGE); TakePages(hs, [AllocAddr(hs[k], PAGE)]) == Some(Carve(hs, k, PAGE, PAGE))
  {
  }

  /** Exactly the addresses of those pages stop being free, and all of them were. */
  lemma {:induction false} TakenWereFree(hs: seq<Hole>, ps: seq<nat>)
    requires Canonical(hs) && PageHoles(hs) && TakePages(hs, ps).Some?
    ensures var hs' := TakePages(hs, ps).value;
      && Canonical(hs') && PageHoles(hs')
      && (forall x :: Free(hs, x) <==> Free(hs', x) || InPages(ps, x))
      && (forall x :: !(Free(hs', x) && InPages(ps, x)))
    decreases |ps|
  {
    if ps != [] {
      TakeOne(hs, ps);
      TakenWereFree(Carve(hs, FitIndex(hs, PAGE, PAGE), PAGE, PAGE), ps[1..]);
      InPagesCons(ps);
    }
  }

  /** The first of the pages taken. */
  lemma TakeOne(hs: seq<Hole>, ps: seq<nat>)
    requires Canonical(hs) && PageHoles(hs) && ps != [] && TakePages(hs, ps).Some?
    ensures FitIndex(hs, PAGE, PAGE) < |hs|
    ensures var hs' := Carve(hs, FitIndex(hs, PAGE, PAGE), PAGE, PAGE);
      && Canonical(hs') && PageHoles(hs') && ps[0] % PAGE == 0
      && (forall x :: Free(hs, x) <==> Free(hs', x) || ps[0] <= x < ps[0] + PAGE)
      && (forall x :: !(Free(hs', x) && ps[0] <= x < ps[0] + PAGE))
  {
    var k := FitIndex(hs, PAGE, PAGE);
    PagePad(hs[k].base);
    CarveExact(hs, k, PAGE, PAGE);
    CarvePages(hs, k, PAGE);
    assert forall x :: ps[0] <= x < ps[0] + PAGE ==> hs[k].Has(x);
  }

  /** They are whole pages, each taken once. */
  lemma {:induction false} TakenDiffer(hs: seq<Hole>, ps: seq<nat>)
    requires Canonical(hs) && PageHoles(hs) && TakePages(hs, ps).Some?
    ensures Prp.Pages(ps)
    decreases |ps|
  {
    if ps != [] {
      hide Canonical, PageHoles;
      var hs1, rest := Carve(hs, FitIndex(hs, PAGE, PAGE), PAGE, PAGE), ps[1..];
      TakeOne(hs, ps);
      TakenDiffer(hs1, rest);
      TakenWereFree(hs1, rest);
      forall i | 0 < i < |ps| ensures ps[i] % PAGE == 0 && ps[i] != ps[0] {
        assert ps[i] == rest[i - 1];
        assert InPages(rest, ps[i]);
      }
      forall i, j | 0 < i < j < |ps| ensures ps[i] != ps[j] { assert rest[i - 1] != rest[j - 1]; }
    }
  }

  lemma PagesApart(p: nat, q: nat, x: int)
    requires p % PAGE == 0 && q % PAGE == 0 && p != q && p <= x < p + PAGE
    ensures !(q <= x < q + PAGE)
  {
  }

  /** Exactly the addresses of the pages given back become free. */
  lemma {:induction false} GivenAreFree(hs: seq<Hole>, ps: seq<nat>)
    requires Canonical(hs) && Prp.Pages(ps) && GivePages(hs, ps).Some?
    requires forall i :: 0 <= i < |ps| ==> RangeUsed(hs, ps[i], PAGE)
    ensures var hs' := GivePages(hs, ps).value;
      Canonical(hs') && forall x :: Free(hs', x) <==> Free(hs, x) || InPages(ps, x)
    decreases |ps|
  {
    if ps != [] {
      var hs1, rest := Release(hs, ps[0], PAGE), ps[1..];
      ReleaseExact(hs, ps[0], PAGE);
      forall i | 0 <= i < |rest| ensures rest[i] % PAGE == 0 && RangeUsed(hs1, rest[i], PAGE) {
        assert rest[i] == ps[i + 1];
        forall x | rest[i] <= x < rest[i] + PAGE ensures !Free(hs1, x) {
          PagesApart(rest[i], ps[0], x);
        }
      }
      GivenAreFree(hs1, rest);
      InPagesCons(ps);
    }
  }

  /** Giving back the pages taken restores the holes. */
  lemma {:induction false} GiveUndoesTake(hs: seq<Hole>, ps: seq<nat>)
    requires Canonical(hs) && PageHoles(hs) && TakePages(hs, ps).Some?
    requires GivePages(TakePages(hs, ps).value, ps).Some?
    ensures GivePages(TakePages(hs, ps).value, ps) == Some(hs)
  {
    var hs1 := TakePages(hs, ps).value;
    TakenWereFree(hs, ps);
    TakenDiffer(hs, ps);
    forall i | 0 <= i < |ps| ensures RangeUsed(hs1, ps[i], PAGE) {
      forall x | ps[i] <= x < ps[i] + PAGE ensures !Free(hs1, x) { assert InPages(ps, x); }
    }
    GivenAreFree(hs1, ps);
    CanonicalUnique(GivePages(hs1, ps).value, hs);
  }

  ghost predicate InPages(ps: seq<nat>, x: int) {
    exists i :: 0 <= i < |ps| && ps[i] <= x < ps[i] + PAGE
  }

  lemma InPagesCons(ps: seq<nat>)
    requires ps != []
    ensures forall x :: InPages(ps, x) <==> ps[0] <= x < ps[0] + PAGE || InPages(ps[1..], x)
  {
    forall x ensures InPages(ps, x) <==> ps[0] <= x < ps[0] + PAGE || InPages(ps[1..], x) {
      if InPages(ps, x) {
        var i :| 0 <= i < |ps| && ps[i] <= x < ps[i] + PAGE;
        assert 0 < i ==> ps[1..][i - 1] == ps[i];
      }
      if InPages(ps[1..], x) {
        var i :| 0 <= i < |ps[1..]| && ps[1..][i] <= x < ps[1..][i] + PAGE;
        assert ps[i + 1] == ps[1..][i];
      }
    }
  }

  // ---- handling completions ----

  /** handle_cqe: a command with a callback is erased and its pages are freed. */
  function HandleOne(m: CommandMap, hs: seq<Hole>, id: nat): Option<(CommandMap, seq<Hole>)> {
    if Callback(m, id) == None then Some((Completed(m, id), hs))
    else match GivePages(hs, m[id].prpLists)
      case None => None
      case Some(hs') => Some((Completed(m, id), hs'))
  }

  function HandleAll(m: CommandMap, hs: seq<Hole>, cs: seq<Sqe>): Option<(CommandMap, seq<Hole>)>
    decreases |cs|
  {
    if cs == [] then Some((m, hs))
    else match HandleOne(m, hs, cs[0].cid)
      case None => None
      case Some(r) => HandleAll(r.0, r.1, cs[1..])
  }

  lemma {:induction false} HandleAllAppend(m: CommandMap, hs: seq<Hole>, a: seq<Sqe>, b: seq<Sqe>)
    ensures HandleAll(m, hs, a + b) == match HandleAll(m, hs, a) case None => None case Some(r) => HandleAll(r.0, r.1, b)
    decreases |a|
  {
    if a == [] {
      assert a + b == b;
    } else {
      assert (a + b)[0] == a[0] && (a + b)[1..] == a[1..] + b;
      match HandleOne(m, hs, a[0].cid)
      case None =>
      case Some(r) => HandleAllAppend(r.0, r.1, a[1..], b);
    }
  }

  /** Entry n handled after those before it; an abort there is an abort of the whole. */
  lemma {:induction false} HandleNextOf(m: CommandMap, hs: seq<Hole>, cs: seq<Sqe>, n: nat)
    requires n < |cs| && HandleAll(m, hs, cs[..n]).Some?
    ensures var r := HandleAll(m, hs, cs[..n]).value; var h := HandleOne(r.0, r.1, cs[n].cid);
      HandleAll(m, hs, cs[..n + 1]) == h && (h == None ==> HandleAll(m, hs, cs) == None)
  {
    HandleAllAppend(m, hs, cs[..n], [cs[n]]);
    assert cs[..n] + [cs[n]] == cs[..n + 1] && [cs[n]][1..] == [];
    HandleAllAppend(m, hs, cs[..n + 1], cs[n + 1..]);
    assert cs[..n + 1] + cs[n + 1..] == cs;
  }

  // ---- when it cannot abort ----

  /** Live blocks by address; the list pages are among them. */
  ghost predicate PagesLive(m: CommandMap, live: map<nat, Block>) {
    forall id, i :: HasPage(m, id, i) ==> Live(live, PageOf(m, id, i))
  }

  ghost predicate Live(live: map<nat, Block>, p: nat) {
    p in live && live[p] == Block(p, PAGE)
  }

  /** Pages to be freed: live, different, and listed by no command of m. */
  ghost predicate LivePages(m: CommandMap, live: map<nat, Block>, ps: seq<nat>) {
    && (forall i :: 0 <= i < |ps| ==> Live(live, ps[i]) && Unlisted(m, ps[i]))
    && (forall i, j :: 0 <= i < j < |ps| ==> ps[i] != ps[j])
  }

  ghost function Without(live: map<nat, Block>, ps: seq<nat>): map<nat, Block> {
    live - (set p | p in ps)
  }

  lemma {:induction false} GivePagesSucceeds(lo: nat, hi: nat, m: CommandMap, hs: seq<Hole>, live: map<nat, Block>, ps: seq<nat>)
    requires Partition(lo, hi, hs, live) && |live| <= 510 && PagesLive(m, live) && LivePages(m, live, ps)
    ensures var r, live' := GivePages(hs, ps), Without(live, ps);
      r.Some? && Partition(lo, hi, r.value, live') && |live'| <= 510 && PagesLive(m, live')
    decreases |ps|
  {
    hide Partition, PagesLive, LivePages, Release, Without;
    LessAll(live, ps);
    if ps != [] {
      HolesBounded(lo, hi, hs, live);
      GiveOne(lo, hi, m, hs, live, ps);
      GivePagesSucceeds(lo, hi, m, Release(hs, ps[0], PAGE), live - {ps[0]}, ps[1..]);
    }
  }

  lemma LessAll(live: map<nat, Block>, ps: seq<nat>)
    ensures ps == [] ==> Without(live, ps) == live
    ensures ps != [] ==> Without(live, ps) == Without(live - {ps[0]}, ps[1..])
  {
    assert ps != [] ==> (set p | p in ps) == {ps[0]} + (set p | p in ps[1..]);
  }

  /** The first of the pages freed. */
  lemma GiveOne(lo: nat, hi: nat, m: CommandMap, hs: seq<Hole>, live: map<nat, Block>, ps: seq<nat>)
    requires Partition(lo, hi, hs, live) && PagesLive(m, live) && LivePages(m, live, ps) && ps != []
    ensures var less := live - {ps[0]};
      && Partition(lo, hi, Release(hs, ps[0], PAGE), less) && |less| <= |live|
      && PagesLive(m, less) && LivePages(m, less, ps[1..])
  {
    hide Partition;
    FreeKeeps(lo, hi, hs, live, ps[0]);
    var rest, less := ps[1..], live - {ps[0]};
    forall id, i | HasPage(m, id, i) ensures Live(less, PageOf(m, id, i)) {
      assert Live(live, PageOf(m, id, i));
    }
    forall i | 0 <= i < |rest| ensures Live(less, rest[i]) && Unlisted(m, rest[i]) { assert rest[i] == ps[i + 1]; }
    assert less.Keys == live.Keys - {ps[0]};
    assert |less.Keys| == |less| && |live.Keys| == |live|;
  }

  // ---- which addresses handling frees ----

  /** x is in a list page of a command with a callback that cs completes. */
  ghost predicate InErased(m: CommandMap, cs: seq<Sqe>, x: int) {
    exists id :: id in m && m[id].callback.Some? && Mentions(cs, id) && InPages(m[id].prpLists, x)
  }

  lemma OwnedPages(m: CommandMap, hs: seq<Hole>, id: nat)
    requires Owned(m, hs) && id in m
    ensures Prp.Pages(m[id].prpLists) && forall i :: 0 <= i < |m[id].prpLists| ==> RangeUsed(hs, m[id].prpLists[i], PAGE)
  {
    OwnedDistinct(m, hs, id);
    OwnedFewer(m, hs, id);
  }

  lemma NotInPages(ps: seq<nat>, p: nat, x: int)
    requires p % PAGE == 0 && p <= x < p + PAGE
    requires forall k :: 0 <= k < |ps| ==> ps[k] % PAGE == 0 && ps[k] != p
    ensures !InPages(ps, x)
  {
    forall k | 0 <= k < |ps| ensures !(ps[k] <= x < ps[k] + PAGE) { PagesApart(p, ps[k], x); }
  }

  /** The other commands' pages stay in use. */
  lemma OwnedAfterGive(m: CommandMap, hs: seq<Hole>, hs': seq<Hole>, id: nat)
    requires Owned(m, hs) && id in m && forall x :: Free(hs', x) <==> Free(hs, x) || InPages(m[id].prpLists, x)
    ensures Owned(m - {id}, hs')
  {
    OwnedFewer(m, hs, id);
    OwnedPages(m, hs, id);
    var ps := m[id].prpLists;
    forall j, i | HasPage(m - {id}, j, i) ensures PageUsed(hs', PageOf(m - {id}, j, i)) {
      var p := PageOf(m - {id}, j, i);
      assert PageUsed(hs, p);
      forall k | 0 <= k < |ps| ensures ps[k] != p { assert Unlisted(m - {id}, ps[k]); }
      forall x | p <= x < p + PAGE ensures !Free(hs', x) {
        NotInPages(ps, p, x);
      }
    }
  }

  /** Exactly the list pages of the commands erased become free. */
  lemma {:induction false} HandlingFrees(m: CommandMap, hs: seq<Hole>, cs: seq<Sqe>)
    requires Canonical(hs) && Owned(m, hs) && HandleAll(m, hs, cs).Some?
    ensures var hs' := HandleAll(m, hs, cs).value.1;
      Canonical(hs') && forall x :: Free(hs', x) <==> Free(hs, x) || InErased(m, cs, x)
    decreases |cs|
  {
    hide Owned, Canonical, GivePages, Mentions, InPages;
    if cs == [] {
      NoneMentioned();
    } else {
      var id := cs[0].cid;
      var m1, hs1 := Completed(m, id), HandleOne(m, hs, id).value.1;
      if Callback(m, id).Some? {
        OwnedPages(m, hs, id);
        GivenAreFree(hs, m[id].prpLists);
        OwnedAfterGive(m, hs, hs1, id);
      } else {
        OwnedSame(m, m1, hs);
      }
      HandlingFrees(m1, hs1, cs[1..]);
      MentionsCons(cs);
      ErasedCons(m, cs);
    }
  }

  lemma NoneMentioned()
    ensures forall id :: !Mentions([], id)
  {
  }

  lemma ErasedCons(m: CommandMap, cs: seq<Sqe>)
    requires cs != []
    ensures var id := cs[0].cid; forall x :: InErased(m, cs, x) <==>
      (Callback(m, id).Some? && InPages(m[id].prpLists, x)) || InErased(Completed(m, id), cs[1..], x)
  {
    hide Mentions, InPages;
    MentionsCons(cs);
    var id := cs[0].cid;
    var m1 := Completed(m, id);
    forall x ensures InErased(m, cs, x) <==>
      (Callback(m, id).Some? && InPages(m[id].prpLists, x)) || InErased(m1, cs[1..], x)
    {
      if InErased(m, cs, x) {
        var j :| j in m && m[j].callback.Some? && Mentions(cs, j) && InPages(m[j].prpLists, x);
        assert j != id ==> j in m1 && m1[j] == m[j] && Mentions(cs[1..], j);
      }
      if InErased(m1, cs[1..], x) {
        var j :| j in m1 && m1[j].callback.Some? && Mentions(cs[1..], j) && InPages(m1[j].prpLists, x);
        assert j in m && m[j].callback.Some? && m[j].prpLists == m1[j].prpLists;
      }
    }
  }

  /** With at most 510 blocks live, the list pages among them, no completion makes a free
      abort, whatever is handled and in whatever order. */
  lemma {:induction false} HandlingSucceeds(lo: nat, hi: nat, m: CommandMap, hs: seq<Hole>, live: map<nat, Block>, cs: seq<Sqe>)
    requires Partition(lo, hi, hs, live) && |live| <= 510 && PagesLive(m, live) && Owned(m, hs)
    ensures HandleAll(m, hs, cs).Some?
    decreases |cs|
  {
    hide Partition, Owned, GivePages, PagesLive, LivePages, Without;
    if cs != [] {
      var id := cs[0].cid;
      var m' := Completed(m, id);
      if Callback(m, id).Some? {
        FreedAreLive(m, hs, live, id);
        var live' := Without(live, m[id].prpLists);
        GivePagesSucceeds(lo, hi, m', hs, live, m[id].prpLists);
        var hs' := GivePages(hs, m[id].prpLists).value;
        StillOwned(lo, hi, m, hs, hs', live', id);
        HandlingSucceeds(lo, hi, m', hs', live', cs[1..]);
      } else {
        OwnedSame(m, m', hs);
        PagesSame(m, m', live);
        HandlingSucceeds(lo, hi, m', hs, live, cs[1..]);
      }
    }
  }

  lemma PagesSame(m: CommandMap, m': CommandMap, live: map<nat, Block>)
    requires PagesLive(m, live) && forall id :: id in m' ==> id in m && m'[id].prpLists == m[id].prpLists
    ensures PagesLive(m', live)
  {
    forall id, i | HasPage(m', id, i) ensures Live(live, PageOf(m', id, i)) {
      assert HasPage(m, id, i) && PageOf(m', id, i) == PageOf(m, id, i);
    }
  }

  lemma FreedAreLive(m: CommandMap, hs: seq<Hole>, live: map<nat, Block>, id: nat)
    requires PagesLive(m, live) && Owned(m, hs) && id in m
    ensures PagesLive(m - {id}, live) && LivePages(m - {id}, live, m[id].prpLists)
  {
    hide Owned;
    OwnedDistinct(m, hs, id);
    PagesSame(m, m - {id}, live);
    forall i | 0 <= i < |m[id].prpLists| ensures Live(live, m[id].prpLists[i]) {
      assert HasPage(m, id, i) && PageOf(m, id, i) == m[id].prpLists[i];
    }
  }

  /** The pages of the commands left are live, so they are in use and still differ. */
  lemma StillOwned(lo: nat, hi: nat, m: CommandMap, hs: seq<Hole>, hs': seq<Hole>, live: map<nat, Block>, id: nat)
    requires Owned(m, hs) && id in m && PagesLive(m - {id}, live) && Partition(lo, hi, hs', live)
    ensures Owned(m - {id}, hs')
  {
    OwnedFewer(m, hs, id);
    forall j, i | HasPage(m - {id}, j, i) ensures PageUsed(hs', PageOf(m - {id}, j, i)) {
      var p := PageOf(m - {id}, j, i);
      assert PageUsed(hs, p);
      assert Live(live, p);
      FreeKeeps(lo, hi, hs', live, p);
    }
  }
}
