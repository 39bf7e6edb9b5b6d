/** The host's NVMe driver on one I/O queue: queue indices and doorbells, command setup,
    PRP lists, submission, and the completion interrupt. */
module NvmeDriver {
  import opened Wrappers
  import opened HoleList
  import opened Memory
  import opened QueuePair
  import opened Commands
  import Prp
  import SlotTable

  /** NVMeQueue, with the rings in DMA memory, its two doorbell registers, and, as ghost
      fields, the indices of the device, which no method here changes. */
  class NvmeQueue {
    const depth: nat
    const sq: array<Sqe>
    const cq: array<Cqe>
    var sqTail: nat
    var lastSqTail: nat
    var cqHead: nat
    var cqPhase: nat
    var sqDb: nat
    var cqDb: nat
    ghost var devSqHead: nat
    ghost var devCqTail: nat
    ghost var devPhase: nat

    ghost function View(): Queue
      reads this, sq, cq
    {
      Queue(depth, sq[..], cq[..], sqTail, lastSqTail, cqHead, cqPhase, sqDb, cqDb, devSqHead, devCqTail, devPhase)
    }

    ghost predicate Valid()
      reads this, sq, cq
    {
      WellFormed(View()) && depth <= 0x1_0000
    }

    constructor (depth: nat)
      requires 2 <= depth <= 0x1_0000
      ensures Valid() && fresh(sq) && fresh(cq)
      ensures View() == InitQueue(depth)
    {
      this.depth := depth;
      sq := new Sqe[depth](_ => NO_CMD);
      cq := new Cqe[depth](_ => Cqe(NO_CMD, 0));
      sqTail, lastSqTail, cqHead, cqPhase := 0, 0, 0, 1;
      sqDb, cqDb := 0, 0;
      devSqHead, devCqTail, devPhase := 0, 0, 1;
    }

    method WriteSqDoorbell(writeSq: bool)
      requires Valid()
      modifies this`sqDb, this`lastSqTail
      ensures Valid() && View() == QueuePair.WriteSqDoorbell(old(View()), writeSq)
    {
      if !writeSq {
        var nextTail := (sqTail + 1) % 0x1_0000;
        if nextTail == depth {
          nextTail := 0;
        }
        if nextTail != lastSqTail {
          return;
        }
      }
      sqDb := sqTail;
      lastSqTail := sqTail;
    }

    method SubmitSqCommand(c: Sqe, writeSq: bool)
      requires Valid()
      modifies this`sqTail, this`sqDb, this`lastSqTail, sq
      ensures Valid() && View() == QueuePair.WriteSqDoorbell(WriteSqe(old(View()), c), writeSq)
    {
      sq[sqTail] := c;
      sqTail := (sqTail + 1) % 0x1_0000;
      if sqTail == depth {
        sqTail := 0;
      }
      assert View() == WriteSqe(old(View()), c);
      WriteSqDoorbell(writeSq);
    }

    method CqePending() returns (pending: bool)
      requires Valid()
      ensures pending == QueuePair.CqePending(View())
    {
      pending := cq[cqHead].phase == cqPhase;
    }

    method UpdateCqHead()
      requires Valid() && cqPhase <= 1
      modifies this`cqHead, this`cqPhase
      ensures Valid() && View() == QueuePair.UpdateCqHead(old(View()))
    {
      var tmp := (cqHead + 1) % 0x1_0000;
      if tmp == depth {
        cqHead := 0;
        cqPhase := 1 - cqPhase;
      } else {
        cqHead := tmp;
      }
    }

    method RingCqDoorbell()
      requires Valid()
      modifies this`cqDb
      ensures Valid() && View() == QueuePair.RingCqDoorbell(old(View()))
    {
      cqDb := cqHead;
    }
  }

  /** The state of the list-building loop agrees with the loop started afresh on the pages
      used so far, whatever pages were to follow. */
  ghost predicate LoopMatches(w0: Prp.Words, list0: nat, used: seq<nat>, buf0: nat, left0: nat,
                              w: Prp.Words, list: nat, i: nat, buf: nat, left: nat) {
    forall more :: Prp.ListLoop(false, w0, list0, used + more, 0, buf0, left0)
                == Prp.ListLoop(false, w, list, more, i, buf, left)
  }

  lemma MatchStart(w0: Prp.Words, list0: nat, buf0: nat, left0: nat)
    ensures LoopMatches(w0, list0, [], buf0, left0, w0, list0, 0, buf0, left0)
  {
    forall more ensures Prp.ListLoop(false, w0, list0, [] + more, 0, buf0, left0)
                     == Prp.ListLoop(false, w0, list0, more, 0, buf0, left0)
    {
      assert [] + more == more;
    }
  }

  lemma MatchHop(w0: Prp.Words, list0: nat, used: seq<nat>, buf0: nat, left0: nat,
                 w: Prp.Words, list: nat, p: nat, buf: nat, left: nat)
    requires LoopMatches(w0, list0, used, buf0, left0, w, list, Prp.PER_PAGE, buf, left) && PAGE < left
    ensures var last := list + (Prp.PER_PAGE - 1) * 8;
      var w2 := w[p := WordAt(w, last)][last := p][p + Prp.PER_PAGE * 8 := buf];
      LoopMatches(w0, list0, used + [p], buf0, left0, w2, p, Prp.PER_PAGE + 1, buf + PAGE, left - PAGE)
  {
    var last := list + (Prp.PER_PAGE - 1) * 8;
    var w2 := w[p := WordAt(w, last)][last := p][p + Prp.PER_PAGE * 8 := buf];
    forall more ensures Prp.ListLoop(false, w0, list0, used + [p] + more, 0, buf0, left0)
                     == Prp.ListLoop(false, w2, p, more, Prp.PER_PAGE + 1, buf + PAGE, left - PAGE)
    {
      assert used + [p] + more == used + ([p] + more);
      assert ([p] + more)[1..] == more;
    }
  }

  lemma MatchStep(w0: Prp.Words, list0: nat, used: seq<nat>, buf0: nat, left0: nat,
                  w: Prp.Words, list: nat, i: nat, buf: nat, left: nat)
    requires LoopMatches(w0, list0, used, buf0, left0, w, list, i, buf, left) && PAGE < left && i != Prp.PER_PAGE
    ensures LoopMatches(w0, list0, used, buf0, left0, w[list + i * 8 := buf], list, i + 1, buf + PAGE, left - PAGE)
  {
    forall more ensures Prp.ListLoop(false, w0, list0, used + more, 0, buf0, left0)
                     == Prp.ListLoop(false, w[list + i * 8 := buf], list, more, i + 1, buf + PAGE, left - PAGE)
    {
      Prp.InPageStep(false, w, list, more, i, buf, left);
    }
  }

  lemma MatchEnd(w0: Prp.Words, list0: nat, used: seq<nat>, buf0: nat, left0: nat,
                 w: Prp.Words, list: nat, p: nat, i: nat, buf: nat, left: nat)
    requires LoopMatches(w0, list0, used, buf0, left0, w, list, i, buf, left) && left <= PAGE
    requires i != Prp.PER_PAGE ==> p == list
    ensures i != Prp.PER_PAGE ==>
      Prp.ListLoop(false, w0, list0, used, 0, buf0, left0) == Some((w[list + i * 8 := buf], []))
    ensures i == Prp.PER_PAGE ==>
      var last := list + (Prp.PER_PAGE - 1) * 8;
      Prp.ListLoop(false, w0, list0, used + [p], 0, buf0, left0)
      == Some((w[p := WordAt(w, last)][last := p][p + i * 8 := buf], []))
  {
    if i == Prp.PER_PAGE {
      assert [p][1..] == [];
    } else {
      assert used + [] == used;
    }
  }

  /** At a hop with no page left the loop function fails. */
  lemma MatchFails(w0: Prp.Words, list0: nat, used: seq<nat>, buf0: nat, left0: nat,
                   w: Prp.Words, list: nat, buf: nat, left: nat)
    requires LoopMatches(w0, list0, used, buf0, left0, w, list, Prp.PER_PAGE, buf, left)
    ensures Prp.ListLoop(false, w0, list0, used, 0, buf0, left0) == None
  {
    assert used + [] == used;
    assert Prp.ListLoop(false, w, list, [], Prp.PER_PAGE, buf, left) == None;
  }

  /** setup_buffer with a list, by its loop. */
  lemma SetupBy(w: Prp.Words, first: nat, more: seq<nat>, buf: nat, len: nat)
    requires buf % PAGE + len > 2 * PAGE && Prp.Pages([first] + more)
    ensures Prp.Setup(false, w, [first] + more, buf, len)
            == match Prp.ListLoop(false, w, first, more, 0, buf + (PAGE - buf % PAGE), len - (PAGE - buf % PAGE))
               case None => None
               case Some(r) => Some((buf, first, r.0, r.1))
    ensures Prp.Entries(len - Prp.FirstLen(buf)) <= Prp.PER_PAGE ==>
      Prp.RoundTrips(false, w, [first] + more, buf, len)
    ensures var s := Prp.Setup(false, w, [first] + more, buf, len);
      Prp.RoundTrips(false, w, [first] + more, buf, len) ==>
        s.Some? && Prp.DecodesTo(Prp.Decode(s.value.2, s.value.0, s.value.1, len), buf, len)
  {
    hide Prp.ListLoop, Prp.Decode, Prp.DecodesTo;
    assert ([first] + more)[0] == first && ([first] + more)[1..] == more;
    if Prp.Entries(len - Prp.FirstLen(buf)) <= Prp.PER_PAGE {
      Prp.OnePageRoundTrip(w, [first] + more, buf, len);
    }
  }

  lemma SetupNone(w: Prp.Words, buf: nat, len: nat)
    requires buf % PAGE + len > 2 * PAGE
    ensures Prp.Setup(false, w, [], buf, len) == None && Prp.Pages([])
  {
  }

  lemma OnePage(p: nat)
    requires p % PAGE == 0
    ensures Prp.Pages([p])
  {
  }

  lemma NoPages(hs: seq<Hole>)
    ensures TakePages(hs, []) == Some(hs)
  {
  }

  lemma TakePagesAppend(hs: seq<Hole>, p: nat, hs1: seq<Hole>, ps: seq<nat>)
    requires TakePages(hs, [p]) == Some(hs1)
    ensures TakePages(hs, [p] + ps) == TakePages(hs1, ps)
  {
    assert [p][1..] == [] && ([p] + ps)[0] == p && ([p] + ps)[1..] == ps;
  }

  function WithPages(m: CommandMap, id: nat, ps: seq<nat>): (m': CommandMap)
    requires id in m
    ensures id in m' && m'[id].prpLists == ps
    ensures forall qs :: m'[id := m'[id].(prpLists := qs)] == m[id := m[id].(prpLists := qs)]
  {
    m[id := m[id].(prpLists := ps)]
  }

  lemma DrainStep(m: CommandMap, hs: seq<Hole>, h: History, n: nat)
    requires h.consumed <= n < |h.posted|
    ensures var before, c := h.posted[h.consumed..n], h.posted[n];
      && AllCompleted(m, h.posted[h.consumed..n + 1]) == Completed(AllCompleted(m, before), c.cid)
      && Fired(m, h.posted[h.consumed..n + 1]) == Fired(m, before)
         + (match Callback(AllCompleted(m, before), c.cid) case Some(t) => [t] case None => [])
      && (HandleAll(m, hs, before).Some? ==>
            var r := HandleAll(m, hs, before).value;
            var one := HandleOne(r.0, r.1, c.cid);
            && HandleAll(m, hs, h.posted[h.consumed..n + 1]) == one
            && (one == None ==> HandleAll(m, hs, h.posted[h.consumed..]) == None))
  {
    assert h.posted[h.consumed..n + 1] == h.posted[h.consumed..n] + [h.posted[n]];
    FiredSnoc(m, h.posted[h.consumed..n], h.posted[n]);
    var cs, k := h.posted[h.consumed..], n - h.consumed;
    assert cs[..k] == h.posted[h.consumed..n] && cs[..k + 1] == h.posted[h.consumed..n + 1] && cs[k] == h.posted[n];
    if HandleAll(m, hs, cs[..k]).Some? { HandleNextOf(m, hs, cs, k); }
  }

  /** What handling a run of completions means for each command, the memory and the callbacks. */
  lemma DrainedMeans(m: CommandMap, hs: seq<Hole>, cs: seq<Sqe>)
    requires Canonical(hs) && Owned(m, hs) && HandleAll(m, hs, cs).Some?
    ensures Handled(m, AllCompleted(m, cs), cs)
    ensures forall x :: Free(HandleAll(m, hs, cs).value.1, x) <==> Free(hs, x) || InErased(m, cs, x)
    ensures DistinctIds(cs) ==> Fired(m, cs) == CallbacksOf(m, cs)
  {
    CompletionsHandled(m, cs);
    HandlingFrees(m, hs, cs);
    if DistinctIds(cs) { FiredExactly(m, cs); }
  }

  lemma PagesGiven(m: CommandMap, hs: seq<Hole>, id: nat)
    requires Canonical(hs) && Owned(m, hs) && id in m
    ensures GivePages(hs, m[id].prpLists).Some? ==>
      forall x :: Free(GivePages(hs, m[id].prpLists).value, x) <==> Free(hs, x) || InPages(m[id].prpLists, x)
  {
    OwnedPages(m, hs, id);
    if GivePages(hs, m[id].prpLists).Some? { GivenAreFree(hs, m[id].prpLists); }
  }

  /** Memory after one entry was written. */
  function EntryWords(w: Prp.Words, list: nat, p: nat, i: nat, buf: nat): Prp.Words {
    var last := list + (Prp.PER_PAGE - 1) * 8;
    (if i == Prp.PER_PAGE then w[p := WordAt(w, last)][last := p] else w)[p + i * 8 := buf]
  }

  /** One turn of the loop agrees with the loop function, whatever page a hop gets. */
  lemma MatchTurn(w0: Prp.Words, list0: nat, used: seq<nat>, buf0: nat, left0: nat,
                  w: Prp.Words, list: nat, p: nat, i: nat, buf: nat, left: nat)
    requires LoopMatches(w0, list0, used, buf0, left0, w, list, i, buf, left)
    requires i != Prp.PER_PAGE ==> p == list
    ensures Turned(w0, list0, if i == Prp.PER_PAGE then used + [p] else used, buf0, left0,
                   EntryWords(w, list, p, i, buf), p, i, buf, left)
  {
    if left <= PAGE {
      MatchEnd(w0, list0, used, buf0, left0, w, list, p, i, buf, left);
    } else if i == Prp.PER_PAGE {
      MatchHop(w0, list0, used, buf0, left0, w, list, p, buf, left);
    } else {
      MatchStep(w0, list0, used, buf0, left0, w, list, i, buf, left);
    }
  }

  /** After the turn that wrote slot i: either the loop is done, or it agrees one step on. */
  ghost predicate Turned(w0: Prp.Words, list0: nat, used: seq<nat>, buf0: nat, left0: nat,
                         w: Prp.Words, p: nat, i: nat, buf: nat, left: nat) {
    if left <= PAGE then Prp.ListLoop(false, w0, list0, used, 0, buf0, left0) == Some((w, []))
    else LoopMatches(w0, list0, used, buf0, left0, w, p, i + 1, buf + PAGE, left - PAGE)
  }

  class NvmeDriver {
    const space: MemorySpace
    const queue: NvmeQueue
    var commandMap: CommandMap
    var idCounter: nat

    /** Callbacks run so far, by the request they belong to. */
    var fired: seq<nat>

    ghost predicate Valid()
      reads this, space, space.hole, queue, queue.sq, queue.cq
    {
      space.Valid() && queue.Valid() && idCounter < IDS && Owned(commandMap, space.Holes())
    }

    constructor (space: MemorySpace, queue: NvmeQueue)
      requires space.Valid() && queue.Valid()
      ensures Valid() && this.space == space && this.queue == queue
      ensures commandMap == map[] && idCounter == 0 && fired == []
    {
      this.space, this.queue := space, queue;
      commandMap, idCounter, fired := map[], 0, [];
    }

    method SetupAsyncCommand(callback: Option<nat>) returns (id: nat)
      requires Valid()
      modifies this`commandMap, this`idCounter
      ensures Valid()
      ensures id == old(idCounter) && idCounter == (id + 1) % IDS
      ensures commandMap == SetupCommand(old(commandMap), id, callback)
    {
      OwnedSame(commandMap, SetupCommand(commandMap, idCounter, callback), space.Holes());
      ghost var m0 := commandMap;
      id := idCounter;
      idCounter := (idCounter + 1) % IDS;
      if id !in commandMap {
        commandMap := commandMap[id := AsyncCommand(id, false, None, [])];
      }
      commandMap := commandMap[id := AsyncCommand(id, false, callback, commandMap[id].prpLists)];
      assert commandMap == SetupCommand(m0, id, callback);
    }

    /** One page for the list of command id; false is the MemoryNotAvailable exception. */
    method AddListPage(id: nat) returns (r: Option<nat>)
      requires Valid() && id in commandMap
      modifies this`commandMap, space, space.hole
      ensures Valid() && space.words == old(space.words)
      ensures r.Some? <==> FitIndex(old(space.Holes()), PAGE, PAGE) < |old(space.Holes())|
      ensures r.None? ==> space.Holes() == old(space.Holes()) && commandMap == old(commandMap)
      ensures r.Some? ==> TakePages(old(space.Holes()), [r.value]) == Some(space.Holes())
                          && RangeFree(old(space.Holes()), r.value, PAGE)
      ensures r.Some? ==>
        var lists := old(commandMap)[id].prpLists;
        && commandMap == WithPages(old(commandMap), id, lists + [r.value])
        && r.value % PAGE == 0 && r.value !in lists
    {
      ghost var hs := space.Holes();
      r := space.AllocatePages(PAGE);
      if r.Some? {
        NewPage(hs);
        TakeOnePage(hs);
        AllocatedRange(hs, FitIndex(hs, PAGE, PAGE), PAGE, PAGE);
        OwnedMore(commandMap, hs, id, r.value, space.Holes());
        assert forall i :: 0 <= i < |commandMap[id].prpLists| ==>
          HasPage(commandMap, id, i) && PageOf(commandMap, id, i) == commandMap[id].prpLists[i];
        commandMap := commandMap[id := commandMap[id].(prpLists := commandMap[id].prpLists + [r.value])];
      }
    }

    /** setup_buffer.  False is the exception of a failed page allocation; the pages taken
        until then stay listed. */
    method SetupBuffer(id: nat, buf: nat, len: nat)
      returns (ok: bool, prp1: nat, prp2: nat, ghost pages: seq<nat>)
      requires Valid() && id in commandMap && 0 < len && buf + len <= LIMIT32
      modifies this`commandMap, space, space.hole
      ensures Valid() && Prp.Pages(pages)
      ensures commandMap == WithPages(old(commandMap), id, old(commandMap)[id].prpLists + pages)
      ensures TakePages(old(space.Holes()), pages) == Some(space.Holes())
      ensures buf % PAGE + len <= 2 * PAGE ==> ok && pages == []
      ensures !ok ==> FitIndex(space.Holes(), PAGE, PAGE) == |space.Holes()|
      ensures ok <==> Prp.Setup(false, old(space.words), pages, buf, len).Some?
      ensures ok ==> Prp.Setup(false, old(space.words), pages, buf, len) == Some((prp1, prp2, space.words, []))
      ensures ok && (buf % PAGE + len <= 2 * PAGE || Prp.Entries(len - Prp.FirstLen(buf)) <= Prp.PER_PAGE) ==>
        Prp.DecodesTo(Prp.Decode(space.words, prp1, prp2, len), buf, len)
    {
      hide Prp.Decode, Prp.ListLoop, Prp.DecodesTo, Owned, MemorySpace.Shape, Canonical, TakePages;
      NoPages(space.Holes());
      pages := [];
      ghost var had := commandMap[id].prpLists;
      assert had + [] == had;
      var offset := buf % PAGE;
      if offset + len <= 2 * PAGE {
        var firstPrpLen := PAGE - offset;
        ok, prp1, prp2 := true, buf, 0;
        if len > firstPrpLen {
          prp2 := buf + firstPrpLen;
        }
        Prp.ShortRoundTrip(false, space.words, [], buf, len);
        return;
      }
      ok, prp1, prp2, pages := SetupList(id, buf, len);
    }

    /** The part of setup_buffer that needs a list. */
    method SetupList(id: nat, buf: nat, len: nat)
      returns (ok: bool, prp1: nat, prp2: nat, ghost pages: seq<nat>)
      requires Valid() && id in commandMap && buf + len <= LIMIT32 && buf % PAGE + len > 2 * PAGE
      modifies this`commandMap, space, space.hole
      ensures Valid() && Prp.Pages(pages)
      ensures commandMap == WithPages(old(commandMap), id, old(commandMap)[id].prpLists + pages)
      ensures TakePages(old(space.Holes()), pages) == Some(space.Holes())
      ensures !ok ==> FitIndex(space.Holes(), PAGE, PAGE) == |space.Holes()|
      ensures ok <==> Prp.Setup(false, old(space.words), pages, buf, len).Some?
      ensures ok ==> Prp.Setup(false, old(space.words), pages, buf, len) == Some((prp1, prp2, space.words, []))
      ensures ok && Prp.Entries(len - Prp.FirstLen(buf)) <= Prp.PER_PAGE ==>
        Prp.DecodesTo(Prp.Decode(space.words, prp1, prp2, len), buf, len)
    {
      hide Prp.Decode, Prp.ListLoop, Prp.DecodesTo, Prp.Setup, Prp.RoundTrips, Prp.Pages, Prp.Entries;
      hide Owned, MemorySpace.Shape, MemorySpace.Holes, Canonical, Within32, TakePages;
      NoPages(space.Holes());
      ghost var had, w0, hs0 := commandMap[id].prpLists, space.words, space.Holes();
      assert had + [] == had;
      SetupNone(w0, buf, len);
      var offset := buf % PAGE;
      prp1, prp2, pages := buf, 0, [];
      var first := AddListPage(id);
      if first == None {
        ok := false;
        return;
      }
      prp2 := first.value;
      OnePage(prp2);
      ghost var hs1 := space.Holes();
      ok := FillList(id, prp2, |had|, buf + (PAGE - offset), len - (PAGE - offset));
      pages := commandMap[id].prpLists[|had|..];
      ghost var more := commandMap[id].prpLists[|had| + 1..];
      assert commandMap[id].prpLists == had + pages && pages == [prp2] + more;
      TakePagesAppend(hs0, prp2, hs1, more);
      SetupBy(w0, prp2, more, buf, len);
    }

    /** Behind the `had` pages it listed before, command id has grown a page list that starts
        with `first`; nothing else changed. */
    ghost predicate Grown(m0: CommandMap, id: nat, first: nat, had: nat)
      reads this
    {
      && id in m0 && id in commandMap
      && commandMap == WithPages(m0, id, commandMap[id].prpLists)
      && had < |commandMap[id].prpLists| && commandMap[id].prpLists[had] == first
      && had <= |m0[id].prpLists| && commandMap[id].prpLists[..had] == m0[id].prpLists[..had]
      && Prp.Pages(commandMap[id].prpLists[had..])
    }

    /** The loop of setup_buffer, on the first list page. */
    method FillList(id: nat, first: nat, ghost had: nat, buf0: nat, left0: nat) returns (ok: bool)
      requires Valid() && Grown(commandMap, id, first, had) && |commandMap[id].prpLists| == had + 1 && 0 < left0
      modifies this`commandMap, space, space.hole
      ensures Valid() && Grown(old(commandMap), id, first, had)
      ensures TakePages(old(space.Holes()), commandMap[id].prpLists[had + 1..]) == Some(space.Holes())
      ensures !ok ==> FitIndex(space.Holes(), PAGE, PAGE) == |space.Holes()|
      ensures !ok ==> Prp.ListLoop(false, old(space.words), first, commandMap[id].prpLists[had + 1..], 0, buf0, left0) == None
      ensures ok ==> Prp.ListLoop(false, old(space.words), first, commandMap[id].prpLists[had + 1..], 0, buf0, left0)
                     == Some((space.words, []))
    {
      hide Prp.ListLoop, LoopMatches, Owned, MemorySpace.Shape, Canonical, WellFormed, TakePages;
      ghost var w0, m0, hs0 := space.words, commandMap, space.Holes();
      var prpList: nat, i: nat, buf: nat, buflen: nat := first, 0, buf0, left0;
      MatchStart(w0, first, buf0, left0);
      assert commandMap[id].prpLists[had + 1..] == [];
      NoPages(hs0);
      ok := true;
      while true
        invariant Valid() && Grown(m0, id, first, had)
        invariant LoopMatches(w0, first, commandMap[id].prpLists[had + 1..], buf0, left0, space.words, prpList, i, buf, buflen)
        invariant TakePages(hs0, commandMap[id].prpLists[had + 1..]) == Some(space.Holes())
        decreases buflen
      {
        ghost var used, hs, w := commandMap[id].prpLists[had + 1..], space.Holes(), space.words;
        var page := PutEntry(id, prpList, i, buf, buflen, first, had, m0, w0, buf0, left0);
        if page == None {
          MatchFails(w0, first, used, buf0, left0, w, prpList, buf, buflen);
          ok := false;
          break;
        }
        if i == Prp.PER_PAGE { TakePagesSnoc(hs0, used, hs, page.value); }
        prpList := page.value;
        if buflen <= PAGE {
          break;
        }
        i, buf, buflen := i + 1, buf + PAGE, buflen - PAGE;
      }
    }

    /** One entry, in slot i of the current list page or of the page chained on behind it. */
    method PutEntry(id: nat, prpList: nat, i: nat, buf: nat, ghost left: nat,
                    ghost first: nat, ghost had: nat, ghost m0: CommandMap, ghost w0: Prp.Words, ghost buf0: nat, ghost left0: nat)
      returns (r: Option<nat>)
      requires Valid() && Grown(m0, id, first, had)
      requires LoopMatches(w0, first, commandMap[id].prpLists[had + 1..], buf0, left0, space.words, prpList, i, buf, left)
      modifies this`commandMap, space, space.hole
      ensures Valid() && Grown(m0, id, first, had)
      ensures r.None? ==> i == Prp.PER_PAGE && FitIndex(space.Holes(), PAGE, PAGE) == |space.Holes()|
      ensures r.None? ==> space.Holes() == old(space.Holes()) && commandMap == old(commandMap)
      ensures r.Some? && i == Prp.PER_PAGE ==>
        && TakePages(old(space.Holes()), [r.value]) == Some(space.Holes())
        && commandMap[id].prpLists[had + 1..] == old(commandMap)[id].prpLists[had + 1..] + [r.value]
      ensures r.Some? && i != Prp.PER_PAGE ==> space.Holes() == old(space.Holes()) && commandMap == old(commandMap)
      ensures r.Some? ==>
        Turned(w0, first, commandMap[id].prpLists[had + 1..], buf0, left0, space.words, r.value, i, buf, left)
    {
      hide Prp.ListLoop, LoopMatches, Owned, MemorySpace.Shape, MemorySpace.Holes, Canonical, Within32, TakePages, Prp.Pages;
      ghost var w, used := space.words, commandMap[id].prpLists[had + 1..];
      r := Some(prpList);
      if i == Prp.PER_PAGE {
        r := ChainPage(id, prpList, first, had, m0);
      }
      if r.Some? {
        space.Write8(r.value + i * 8, buf);
        MatchTurn(w0, first, used, buf0, left0, w, prpList, r.value, i, buf, left);
      }
    }

    /** A further list page takes over the last entry of the full one, which becomes the link. */
    method ChainPage(id: nat, oldPrpList: nat, ghost first: nat, ghost had: nat, ghost m0: CommandMap) returns (r: Option<nat>)
      requires Valid() && Grown(m0, id, first, had)
      modifies this`commandMap, space, space.hole
      ensures Valid() && Grown(m0, id, first, had)
      ensures r.None? ==> FitIndex(space.Holes(), PAGE, PAGE) == |space.Holes()|
      ensures r.None? ==> space.Holes() == old(space.Holes()) && commandMap == old(commandMap)
      ensures r.Some? ==> TakePages(old(space.Holes()), [r.value]) == Some(space.Holes())
      ensures r.Some? ==>
        var last := oldPrpList + (Prp.PER_PAGE - 1) * 8;
        && commandMap[id].prpLists[had + 1..] == old(commandMap)[id].prpLists[had + 1..] + [r.value]
        && space.words == old(space.words)[r.value := WordAt(old(space.words), last)][last := r.value]
    {
      hide Owned, MemorySpace.Shape, MemorySpace.Holes, Canonical, Within32, TakePages;
      r := AddListPage(id);
      if r.Some? {
        var lastEntry := space.Read8(oldPrpList + (Prp.PER_PAGE - 1) * 8);
        space.Write8(r.value, lastEntry);
        space.Write8(oldPrpList + (Prp.PER_PAGE - 1) * 8, r.value);
      }
    }

    /** submit_async_command.  A command still listed under the id loses its callback, and keeps
        its pages.  On false nothing is submitted. */
    method SubmitAsyncCommand(buf: nat, len: nat, callback: Option<nat>, tag: nat)
      returns (ok: bool, c: Sqe, ghost pages: seq<nat>)
      requires Valid() && buf + len <= LIMIT32
      modifies this`commandMap, this`idCounter, space, space.hole
      modifies queue`sqTail, queue`sqDb, queue`lastSqTail, queue.sq
      ensures Valid()
      ensures c.cid == old(idCounter) && c.tag == tag && idCounter == (c.cid + 1) % IDS
      ensures var had := if c.cid in old(commandMap) then old(commandMap)[c.cid].prpLists else [];
        commandMap == old(commandMap)[c.cid := AsyncCommand(c.cid, false, callback, had + pages)]
      ensures TakePages(old(space.Holes()), pages) == Some(space.Holes())
      ensures len == 0 || buf % PAGE + len <= 2 * PAGE ==> ok && pages == []
      ensures !ok ==> FitIndex(space.Holes(), PAGE, PAGE) == |space.Holes()|
      ensures ok <==> len == 0 || Prp.Setup(false, old(space.words), pages, buf, len).Some?
      ensures queue.View() == if ok then QueuePair.WriteSqDoorbell(WriteSqe(old(queue.View()), c), true)
                              else old(queue.View())
      ensures len == 0 ==> c.prp1 == 0 && c.prp2 == 0 && space.words == old(space.words)
      ensures ok && 0 < len ==>
        Prp.Setup(false, old(space.words), pages, buf, len) == Some((c.prp1, c.prp2, space.words, []))
    {
      hide Prp.Setup, Prp.Pages, Owned, MemorySpace.Shape, Canonical, WellFormed, TakePages;
      NoPages(space.Holes());
      ok, pages := true, [];
      var id := SetupAsyncCommand(callback);
      var prp1, prp2 := 0, 0;
      if len != 0 {
        ok, prp1, prp2, pages := SetupBuffer(id, buf, len);
      }
      c := Sqe(id, prp1, prp2, tag);
      assert SetupCommand(old(commandMap), id, callback)[id].prpLists + [] == SetupCommand(old(commandMap), id, callback)[id].prpLists;
      if ok {
        queue.SubmitSqCommand(c, true);
      }
    }

    /** Erases a command; its destructor gives the PRP list pages back.  False is the abort
        of a free that finds the slot table full. */
    method RemoveAsyncCommand(id: nat) returns (ok: bool)
      requires Valid() && id in commandMap
      modifies this`commandMap, space, space.hole
      ensures Valid() && commandMap == old(commandMap) - {id} && space.words == old(space.words)
      ensures ok <==> GivePages(old(space.Holes()), old(commandMap)[id].prpLists).Some?
      ensures ok ==> GivePages(old(space.Holes()), old(commandMap)[id].prpLists) == Some(space.Holes())
      ensures ok ==> forall x :: Free(space.Holes(), x) <==>
        old(Free(space.Holes(), x)) || InPages(old(commandMap)[id].prpLists, x)
      ensures !ok ==> |space.Holes()| >= SlotTable.NR_HOLES
    {
      hide Owned, MemorySpace.Shape, Canonical, FreeablePages, WellFormed;
      var prpLists := commandMap[id].prpLists;
      ghost var m, hs := commandMap, space.Holes();
      OwnedFewer(m, hs, id);
      OwnedDistinct(m, hs, id);
      PagesGiven(m, hs, id);
      commandMap := commandMap - {id};
      ok := true;
      var i := 0;
      while i < |prpLists|
        invariant i <= |prpLists| && commandMap == m - {id} && space.words == old(space.words) && Valid()
        invariant FreeablePages(commandMap, space.Holes(), prpLists[i..])
        invariant GivePages(hs, prpLists) == GivePages(space.Holes(), prpLists[i..])
      {
        FreeableNext(commandMap, space.Holes(), prpLists[i..]);
        ok := space.Free(prpLists[i], PAGE);
        assert prpLists[i..][1..] == prpLists[i + 1..];
        if !ok {
          return;
        }
        i := i + 1;
      }
    }

    /** False is an abort in freeing the command's pages. */
    method HandleCqe(idx: nat) returns (ok: bool)
      requires Valid() && idx < queue.depth
      modifies this`commandMap, this`fired, space, space.hole
      ensures Valid() && (!ok ==> |space.Holes()| >= SlotTable.NR_HOLES)
      ensures ok <==> HandleOne(old(commandMap), old(space.Holes()), old(queue.cq[idx]).cmd.cid).Some?
      ensures ok ==> HandleOne(old(commandMap), old(space.Holes()), old(queue.cq[idx]).cmd.cid)
                     == Some((commandMap, space.Holes()))
      ensures var id := old(queue.cq[idx]).cmd.cid;
        && Handled(old(commandMap), commandMap, [old(queue.cq[idx]).cmd])
        && commandMap == Completed(old(commandMap), id)
        && fired == old(fired) + (match Callback(old(commandMap), id) case Some(t) => [t] case None => [])
    {
      hide Owned, MemorySpace.Shape, Canonical, Handled;
      ok := true;
      var id := queue.cq[idx].cmd.cid;
      HandledOne(commandMap, queue.cq[idx].cmd);
      if id !in commandMap {
        return;
      }
      var callback := commandMap[id].callback;
      if callback.Some? {
        fired := fired + [callback.value];
        ok := RemoveAsyncCommand(id);
      } else {
        OwnedSame(commandMap, Completed(commandMap, id), space.Holes());
        commandMap := commandMap[id := commandMap[id].(completed := true)];
      }
    }

    /** The body of the drain loop: one entry handled, the head moved on. */
    method HandleNext(ghost h: History, ghost n: nat, ghost m: CommandMap, ghost hs: seq<Hole>, ghost f: seq<nat>)
      returns (ok: bool, pending: bool)
      requires Valid() && queue.depth <= 65535 && h.consumed <= n < |h.posted|
      requires Related(queue.View(), h.(consumed := n)) && Drained(m, hs, f, h, n)
      modifies this`commandMap, this`fired, space, space.hole, queue`cqHead, queue`cqPhase
      ensures Valid()
      ensures ok ==> Related(queue.View(), h.(consumed := n + 1)) && Drained(m, hs, f, h, n + 1)
      ensures ok ==> (pending <==> n + 1 < |h.posted|)
      ensures !ok ==> HandleAll(m, hs, h.posted[h.consumed..]) == None && |space.Holes()| >= SlotTable.NR_HOLES
    {
      hide SqRelated, Owned, MemorySpace.Shape, Canonical, HandleOne;
      pending := false;
      PendingExactly(queue.View(), h.(consumed := n));
      DrainStep(m, hs, h, n);
      ok := HandleCqe(queue.cqHead);
      if ok {
        ConsumeKeeps(queue.View(), h.(consumed := n));
        queue.UpdateCqHead();
        PendingExactly(queue.View(), h.(consumed := n + 1));
        pending := queue.CqePending();
      }
    }

    /** Drains the completion queue: every posted entry is handled once, oldest first, and
        the doorbell tells the device so.  False is an abort, exactly where HandleAll has one. */
    method NvmeIrq(ghost h: History) returns (ok: bool)
      requires Valid() && Related(queue.View(), h) && queue.depth <= 65535
      modifies this`commandMap, this`fired, space, space.hole, queue`cqHead, queue`cqPhase, queue`cqDb
      ensures Valid() && (!ok ==> |space.Holes()| >= SlotTable.NR_HOLES)
      ensures h.consumed <= |h.posted|
      ensures ok <==> HandleAll(old(commandMap), old(space.Holes()), h.posted[h.consumed..]).Some?
      ensures ok ==> Related(queue.View(), h.(consumed := |h.posted|,
                                              rung := if h.consumed < |h.posted| then |h.posted| else h.rung))
      ensures ok ==> Drained(old(commandMap), old(space.Holes()), old(fired), h, |h.posted|)
      ensures ok ==> Handled(old(commandMap), commandMap, h.posted[h.consumed..])
      ensures ok ==> forall x :: Free(space.Holes(), x) <==>
        old(Free(space.Holes(), x)) || InErased(old(commandMap), h.posted[h.consumed..], x)
      ensures ok && DistinctIds(h.posted[h.consumed..]) ==>
        fired == old(fired) + CallbacksOf(old(commandMap), h.posted[h.consumed..])
    {
      hide SqRelated, CqRelated, Owned, MemorySpace.Shape, Canonical, CqePending, Handled, InErased, DistinctIds;
      ghost var m, hs, f, n := commandMap, space.Holes(), fired, h.consumed;
      var found := 0;
      ok := true;
      PendingExactly(queue.View(), h);
      ConsumedWithin(queue.View(), h);
      var pending := queue.CqePending();
      while pending
        invariant h.consumed <= n <= |h.posted| && 0 <= found
        invariant (found != 0 <==> h.consumed < n) && (pending <==> n < |h.posted|)
        invariant Valid() && Related(queue.View(), h.(consumed := n)) && Drained(m, hs, f, h, n)
        decreases |h.posted| - n
      {
        found := found + 1;
        ok, pending := HandleNext(h, n, m, hs, f);
        if !ok {
          return;
        }
        n := n + 1;
      }
      assert h.posted[h.consumed..n] == h.posted[h.consumed..];
      DrainedMeans(m, hs, h.posted[h.consumed..]);
      if found != 0 {
        RingKeeps(queue.View(), h.(consumed := n));
        queue.RingCqDoorbell();
      }
    }

    /** The entries from h.consumed up to n have been handled in order, and only they. */
    ghost predicate Drained(m: CommandMap, hs: seq<Hole>, f: seq<nat>, h: History, n: nat)
      requires h.consumed <= n <= |h.posted| && space.Shape()
      reads this, space, space.hole
    {
      && HandleAll(m, hs, h.posted[h.consumed..n]) == Some((commandMap, space.Holes()))
      && commandMap == AllCompleted(m, h.posted[h.consumed..n])
      && fired == f + Fired(m, h.posted[h.consumed..n])
    }
  }
}
