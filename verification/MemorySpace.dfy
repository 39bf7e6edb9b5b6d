/** The slot table behind the allocator: 512 slots threaded onto a hole list and a
    free-slot list that share one `next` field.  Every method is proved to compute
    the corresponding function of HoleList on the list of holes it represents. */
module SlotTable {
  import opened HoleList

  const NR_HOLES: nat := 512
  const NIL := -1

  /** One entry of the table; links are slot numbers. */
  datatype Slot = Slot(next: int, base: nat, len: nat)

  function SetNext(t: seq<Slot>, i: int, n: int): (r: seq<Slot>)
    requires 0 <= i < |t|
    ensures |r| == |t| && forall j :: 0 <= j < |t| ==> r[j] == if j == i then t[j].(next := n) else t[j]
  {
    t[i := t[i].(next := n)]
  }

  /** `ix` lists the slots reached from `head` through `next`, in order, ending in NIL. */
  ghost predicate Linked(head: int, t: seq<Slot>, ix: seq<int>) {
    && head == At(ix, 0)
    && (forall i :: 0 <= i < |ix| ==> 0 <= ix[i] < |t|)
    && (forall i :: 0 <= i < |ix| ==> LinkAt(t, ix, i))
  }

  /** Slot number i of a list, or NIL past its end. */
  function At(ix: seq<int>, i: nat): int {
    if i < |ix| then ix[i] else NIL
  }

  /** The slot at position i links to the slot at position i + 1. */
  ghost predicate LinkAt(t: seq<Slot>, ix: seq<int>, i: nat) {
    i < |ix| && 0 <= ix[i] < |t| && t[ix[i]].next == At(ix, i + 1)
  }

  ghost predicate Distinct(ix: seq<int>) {
    forall i, j :: 0 <= i < j < |ix| ==> ix[i] != ix[j]
  }

  ghost predicate Apart(a: seq<int>, b: seq<int>) {
    forall i, j :: 0 <= i < |a| && 0 <= j < |b| ==> a[i] != b[j]
  }

  /** The two lists are acyclic, disjoint and together exactly the slots of the table. */
  ghost predicate TwoLists(t: seq<Slot>, holeHead: int, holeIx: seq<int>, freeHead: int, freeIx: seq<int>) {
    && Linked(holeHead, t, holeIx) && Linked(freeHead, t, freeIx)
    && Distinct(holeIx) && Distinct(freeIx) && Apart(holeIx, freeIx)
    && |holeIx| + |freeIx| == |t|
    && (forall s :: 0 <= s < |t| ==> s in holeIx || s in freeIx)
  }

  /** The holes the slots in `ix` describe. */
  ghost function HolesAt(ix: seq<int>, t: seq<Slot>): (hs: seq<Hole>)
    requires forall i :: 0 <= i < |ix| ==> 0 <= ix[i] < |t|
    ensures |hs| == |ix| && forall i :: 0 <= i < |ix| ==> hs[i] == Hole(t[ix[i]].base, t[ix[i]].len)
  {
    seq(|ix|, i requires 0 <= i < |ix| => Hole(t[ix[i]].base, t[ix[i]].len))
  }

  /** Only the links matter to the two lists. */
  lemma SameLinks(t: seq<Slot>, t': seq<Slot>, hh: int, hx: seq<int>, fh: int, fx: seq<int>)
    requires TwoLists(t, hh, hx, fh, fx) && |t'| == |t|
    requires forall i :: 0 <= i < |t| ==> t'[i].next == t[i].next
    ensures TwoLists(t', hh, hx, fh, fx)
  {
    forall i | 0 <= i < |hx| ensures LinkAt(t', hx, i) { assert LinkAt(t, hx, i); }
    forall i | 0 <= i < |fx| ensures LinkAt(t', fx, i) { assert LinkAt(t, fx, i); }
  }

  function RemoveAt<T>(s: seq<T>, k: nat): (r: seq<T>)
    requires k < |s|
    ensures |r| == |s| - 1 && forall i :: 0 <= i < |r| ==> r[i] == s[if i < k then i else i + 1]
  {
    s[..k] + s[k + 1..]
  }

  /** The table after unlinking position k and pushing its slot on the free list. */
  function Unlinked(t: seq<Slot>, hx: seq<int>, fh: int, k: nat): (t': seq<Slot>)
    requires k < |hx| && forall i :: 0 <= i < |hx| ==> 0 <= hx[i] < |t|
    ensures |t'| == |t|
    ensures forall j :: 0 <= j < |t| && j != hx[k] && (0 < k ==> j != hx[k - 1]) ==> t'[j] == t[j]
    ensures t'[hx[k]] == Slot(fh, 0, 0)
    ensures 0 < k && hx[k - 1] != hx[k] ==> t'[hx[k - 1]] == t[hx[k - 1]].(next := t[hx[k]].next)
  {
    (if k == 0 then t else SetNext(t, hx[k - 1], t[hx[k]].next))[hx[k] := Slot(fh, 0, 0)]
  }

  lemma {:induction false} Unlink(t: seq<Slot>, hh: int, hx: seq<int>, fh: int, fx: seq<int>, k: nat)
    requires TwoLists(t, hh, hx, fh, fx) && k < |hx|
    ensures TwoLists(Unlinked(t, hx, fh, k), if k == 0 then t[hx[k]].next else hh, RemoveAt(hx, k),
                     hx[k], [hx[k]] + fx)
  {
    UnlinkHoles(t, hh, hx, fh, k);
    UnlinkFree(t, hh, hx, fh, fx, k);
    var hx', fx' := RemoveAt(hx, k), [hx[k]] + fx;
    forall s | 0 <= s < |t| ensures s in hx' || s in fx' {
      if s in hx && s != hx[k] {
        var i :| 0 <= i < |hx| && hx[i] == s;
        assert hx'[if i < k then i else i - 1] == s;
      } else {
        assert fx'[0] == hx[k] && fx'[1..] == fx;
      }
    }
  }

  lemma UnlinkHoles(t: seq<Slot>, hh: int, hx: seq<int>, fh: int, k: nat)
    requires Linked(hh, t, hx) && Distinct(hx) && k < |hx|
    ensures Linked(if k == 0 then t[hx[k]].next else hh, Unlinked(t, hx, fh, k), RemoveAt(hx, k))
    ensures Distinct(RemoveAt(hx, k))
  {
    var hx', t' := RemoveAt(hx, k), Unlinked(t, hx, fh, k);
    assert forall i :: 0 <= i < |hx'| ==> hx'[i] == hx[if i < k then i else i + 1];
    assert |hx'| == |hx| - 1;
    forall i | 0 <= i < |hx'| ensures LinkAt(t', hx', i) {
      var j := if i < k then i else i + 1;
      assert LinkAt(t, hx, j);
      assert LinkAt(t, hx, k);
    }
    if k == 0 && |hx| > 1 { assert hx'[0] == hx[1]; }
    if k > 0 { assert hx'[0] == hx[0]; }
  }

  lemma UnlinkFree(t: seq<Slot>, hh: int, hx: seq<int>, fh: int, fx: seq<int>, k: nat)
    requires TwoLists(t, hh, hx, fh, fx) && k < |hx|
    ensures Linked(hx[k], Unlinked(t, hx, fh, k), [hx[k]] + fx)
    ensures Distinct([hx[k]] + fx) && Apart(RemoveAt(hx, k), [hx[k]] + fx)
  {
    var fx', hx', t' := [hx[k]] + fx, RemoveAt(hx, k), Unlinked(t, hx, fh, k);
    assert forall i :: 0 <= i < |hx'| ==> hx'[i] == hx[if i < k then i else i + 1];
    assert forall i :: 0 < i < |fx'| ==> fx'[i] == fx[i - 1];
    forall i | 0 <= i < |fx'| ensures LinkAt(t', fx', i) {
      if 0 < i {
        assert LinkAt(t, fx, i - 1);
      }
    }
  }

  lemma SlotsInTable(t: seq<Slot>, hh: int, hx: seq<int>, fh: int, fx: seq<int>)
    requires TwoLists(t, hh, hx, fh, fx)
    ensures (forall i :: 0 <= i < |hx| ==> 0 <= hx[i] < |t|) && Distinct(hx)
  {
  }

  /** Lengthening hole k by its right neighbour and dropping the neighbour. */
  lemma AbsorbSlots(t: seq<Slot>, hx: seq<int>, k: nat)
    requires (forall i :: 0 <= i < |hx| ==> 0 <= hx[i] < |t|) && Distinct(hx) && k + 1 < |hx|
    ensures var t' := t[hx[k] := t[hx[k]].(len := t[hx[k]].len + t[hx[k + 1]].len)];
      RemoveAt(HolesAt(hx, t'), k + 1) == Absorb(HolesAt(hx, t), k)
  {
  }

  /** The table after filling a slot and linking it in at position p. */
  function LinkedIn(t: seq<Slot>, hh: int, hx: seq<int>, slot: int, p: nat, addr: nat, len: nat): (t': seq<Slot>)
    requires p <= |hx| && 0 <= slot < |t| && forall i :: 0 <= i < |hx| ==> 0 <= hx[i] < |t|
    ensures |t'| == |t|
    ensures forall j :: 0 <= j < |t| && j != slot && (0 < p ==> j != hx[p - 1]) ==> t'[j] == t[j]
    ensures 0 < p && hx[p - 1] != slot ==> t'[hx[p - 1]] == t[hx[p - 1]].(next := slot)
    ensures p == 0 ==> t'[slot] == Slot(hh, addr, len)
    ensures 0 < p && hx[p - 1] != slot ==> t'[slot] == Slot(t[hx[p - 1]].next, addr, len)
  {
    if p == 0 then t[slot := Slot(hh, addr, len)]
    else SetNext(t[slot := Slot(t[hx[p - 1]].next, addr, len)], hx[p - 1], slot)
  }

  function InsertAt<T>(s: seq<T>, p: nat, x: T): (r: seq<T>)
    requires p <= |s|
    ensures |r| == |s| + 1
    ensures forall i :: 0 <= i < |r| ==> r[i] == if i < p then s[i] else if i == p then x else s[i - 1]
  {
    s[..p] + [x] + s[p..]
  }

  lemma {:induction false} Link(t: seq<Slot>, hh: int, hx: seq<int>, fh: int, fx: seq<int>, p: nat, addr: nat, len: nat)
    requires TwoLists(t, hh, hx, fh, fx) && p <= |hx| && fx != []
    ensures TwoLists(LinkedIn(t, hh, hx, fx[0], p, addr, len), if p == 0 then fx[0] else hh,
                     InsertAt(hx, p, fx[0]), t[fx[0]].next, fx[1..])
  {
    var hx', fx' := InsertAt(hx, p, fx[0]), fx[1..];
    LinkHoles(t, hh, hx, fh, fx, p, addr, len);
    LinkFree(t, hh, hx, fh, fx, p, addr, len);
    forall s | 0 <= s < |t| ensures s in hx' || s in fx' {
      if s in hx {
        var i :| 0 <= i < |hx| && hx[i] == s;
        assert hx'[if i < p then i else i + 1] == s;
      } else {
        assert hx'[p] == fx[0] && fx == [fx[0]] + fx';
      }
    }
  }

  lemma LinkHoles(t: seq<Slot>, hh: int, hx: seq<int>, fh: int, fx: seq<int>, p: nat, addr: nat, len: nat)
    requires TwoLists(t, hh, hx, fh, fx) && p <= |hx| && fx != []
    ensures Linked(if p == 0 then fx[0] else hh, LinkedIn(t, hh, hx, fx[0], p, addr, len), InsertAt(hx, p, fx[0]))
    ensures Distinct(InsertAt(hx, p, fx[0]))
  {
    var hx', t' := InsertAt(hx, p, fx[0]), LinkedIn(t, hh, hx, fx[0], p, addr, len);
    forall i | 0 <= i < |hx'| ensures LinkAt(t', hx', i) {
      if i < p {
        assert LinkAt(t, hx, i);
      } else if i == p {
        assert 0 < p ==> LinkAt(t, hx, p - 1);
      } else {
        assert LinkAt(t, hx, i - 1);
      }
    }
  }

  lemma LinkedHolesAt(t: seq<Slot>, hh: int, hx: seq<int>, slot: int, p: nat, addr: nat, len: nat)
    requires p <= |hx| && 0 <= slot < |t| && (forall i :: 0 <= i < |hx| ==> 0 <= hx[i] < |t| && hx[i] != slot)
    ensures forall i :: 0 <= i <= |hx| ==> 0 <= InsertAt(hx, p, slot)[i] < |t|
    ensures HolesAt(InsertAt(hx, p, slot), LinkedIn(t, hh, hx, slot, p, addr, len))
            == Insert(HolesAt(hx, t), p, Hole(addr, len))
  {
    var t' := LinkedIn(t, hh, hx, slot, p, addr, len);
    assert forall i :: 0 <= i < |hx| ==> t'[hx[i]].base == t[hx[i]].base && t'[hx[i]].len == t[hx[i]].len;
  }

  lemma LinkFree(t: seq<Slot>, hh: int, hx: seq<int>, fh: int, fx: seq<int>, p: nat, addr: nat, len: nat)
    requires TwoLists(t, hh, hx, fh, fx) && p <= |hx| && fx != []
    ensures Linked(t[fx[0]].next, LinkedIn(t, hh, hx, fx[0], p, addr, len), fx[1..])
    ensures Distinct(fx[1..]) && Apart(InsertAt(hx, p, fx[0]), fx[1..])
  {
    var fx', t' := fx[1..], LinkedIn(t, hh, hx, fx[0], p, addr, len);
    assert LinkAt(t, fx, 0);
    forall i | 0 <= i < |fx'| ensures LinkAt(t', fx', i) {
      assert LinkAt(t, fx, i + 1);
    }
  }
}

module Memory {
  import opened Wrappers
  import opened HoleList
  import opened SlotTable

  const PAGE: nat := 0x1000
  const LIMIT32: nat := 0x1_0000_0000
  const LIMIT64: nat := 0x1_0000_0000_0000_0000

  /** The roundup macro at page size. */
  function PageUp(x: nat): (r: nat)
    ensures x <= r < x + PAGE && r % PAGE == 0
    ensures r == x <==> x % PAGE == 0
  {
    if x % PAGE == 0 then x else x + PAGE - x % PAGE
  }

  /** No hole reaches 2^32, so sums of a hole's 32-bit fields do not wrap. */
  ghost predicate Within32(hs: seq<Hole>) {
    UpTo(hs, LIMIT32 - 1)
  }

  lemma CarveWithin(hs: seq<Hole>, k: nat, len: nat, align: nat)
    requires Canonical(hs) && Within32(hs) && 0 < align && k < |hs| && HoleList.Fits(hs[k], len, align)
    ensures Canonical(Carve(hs, k, len, align)) && Within32(Carve(hs, k, len, align))
  {
    CarveExact(hs, k, len, align);
    FreeWithin(hs, LIMIT32 - 1);
    EndsWithin(Carve(hs, k, len, align), LIMIT32 - 1);
  }

  lemma ReleaseWithin(hs: seq<Hole>, addr: nat, len: nat)
    requires Canonical(hs) && Within32(hs) && RangeUsed(hs, addr, len) && addr + len < LIMIT32
    ensures Canonical(Release(hs, addr, len)) && Within32(Release(hs, addr, len))
  {
    ReleaseExact(hs, addr, len);
    FreeWithin(hs, LIMIT32 - 1);
    EndsWithin(Release(hs, addr, len), LIMIT32 - 1);
  }

  lemma {:induction false} InsertPosUnique(hs: seq<Hole>, addr: nat, p: nat)
    requires p <= |hs| && (forall i :: 0 <= i < p ==> hs[i].base < addr)
    requires p < |hs| ==> addr <= hs[p].base
    ensures p == InsertPos(hs, addr)
  {
    if p > 0 { InsertPosUnique(hs[1..], addr, p - 1); }
  }

  lemma FitIndexUnique(hs: seq<Hole>, len: nat, align: nat, k: nat)
    requires 0 < align && k <= |hs| && (forall i :: 0 <= i < k ==> !HoleList.Fits(hs[i], len, align))
    requires k < |hs| ==> HoleList.Fits(hs[k], len, align)
    ensures k == FitIndex(hs, len, align)
  {
  }

  lemma InsertWithin(hs: seq<Hole>, addr: nat, len: nat)
    requires Canonical(hs) && Within32(hs) && 0 < len && RangeUsed(hs, addr, len) && addr + len < LIMIT32
    ensures Sorted(Insert(hs, InsertPos(hs, addr), Hole(addr, len)))
    ensures Within32(Insert(hs, InsertPos(hs, addr), Hole(addr, len)))
  {
    InsertSorted(hs, addr, len);
  }

  lemma GapBefore(hs: seq<Hole>, k: nat)
    requires Canonical(hs) && k < |hs|
    ensures 0 < k ==> hs[k - 1].End() < hs[k].base
  {
  }

  /** A hole used up is taken out of the list. */
  lemma CutAway(hs: seq<Hole>, k: nat, base: nat)
    requires k < |hs|
    ensures RemoveAt(hs[..k] + [Hole(base, 0)] + hs[k + 1..], k) == hs[..k] + hs[k + 1..]
  {
  }

  class MemorySpace {
    const hole: array<Slot>
    var holeHead: int
    var freeSlots: int
    ghost var holeIx: seq<int>
    ghost var freeIx: seq<int>

    /** The contents of the DMA memory, as 8-byte words. */
    var words: map<nat, nat>

    ghost predicate Shape()
      reads this`holeHead, this`freeSlots, this`holeIx, this`freeIx, hole
    {
      hole.Length == NR_HOLES && TwoLists(hole[..], holeHead, holeIx, freeSlots, freeIx)
    }

    ghost function Holes(): seq<Hole>
      reads this`holeHead, this`freeSlots, this`holeIx, this`freeIx, hole
      requires Shape()
    {
      HolesAt(holeIx, hole[..])
    }

    ghost predicate Valid()
      reads this`holeHead, this`freeSlots, this`holeIx, this`freeIx, hole
    {
      Shape() && Canonical(Holes()) && Within32(Holes())
    }

    constructor ()
      ensures Valid() && Holes() == [] && words == map[]
      ensures fresh(hole)
    {
      hole := new Slot[NR_HOLES](i => Slot(if i + 1 < NR_HOLES then i + 1 else NIL, 0, 0));
      holeHead, freeSlots := NIL, 0;
      words := map[];
      holeIx, freeIx := [], seq(NR_HOLES, i => i);
      new;
      forall s | 0 <= s < NR_HOLES ensures s in freeIx { assert freeIx[s] == s; }
    }

    /** Unlinks hole number k, held in slot hp, and pushes the slot on the free list. */
    method DeleteSlot(prev: int, hp: int, ghost k: nat)
      requires Shape() && k < |holeIx| && hp == holeIx[k] && (0 < k ==> prev == holeIx[k - 1])
      modifies this`holeHead, this`freeSlots, this`holeIx, this`freeIx, hole
      ensures Shape()
      ensures holeIx == RemoveAt(old(holeIx), k) && freeIx == [hp] + old(freeIx)
      ensures Holes() == RemoveAt(old(Holes()), k)
    {
      Unlink(hole[..], holeHead, holeIx, freeSlots, freeIx, k);
      ghost var t := hole[..];
      if hp == holeHead {
        holeHead := hole[hp].next;
      } else {
        hole[prev] := hole[prev].(next := hole[hp].next);
      }
      hole[hp] := Slot(freeSlots, 0, 0);
      freeSlots := hp;
      assert hole[..] == Unlinked(t, holeIx, old(freeSlots), k);
      holeIx, freeIx := RemoveAt(holeIx, k), [hp] + freeIx;
    }

    /** merge_hole on hole number k, held in slot hp. */
    method MergeHole(hp: int, ghost k: nat)
      requires Shape() && k < |holeIx| && hp == holeIx[k]
      requires Sorted(Holes()) && Within32(Holes())
      modifies this`holeHead, this`freeSlots, this`holeIx, this`freeIx, hole
      ensures Shape()
      ensures Holes() == HoleList.MergeHole(old(Holes()), k)
    {
      hide Distinct, Apart, Sorted;
      assert LinkAt(hole[..], holeIx, k);
      var nextPtr := hole[hp].next;
      if nextPtr == NIL {
        return;
      }
      var at := hp;
      ghost var ka := k;
      assert Holes()[k].End() < LIMIT32 && Holes()[k + 1].End() < LIMIT32;
      if hole[hp].base + hole[hp].len == hole[nextPtr].base {
        MergeNext(hp, nextPtr, k);
      } else {
        at, ka := nextPtr, k + 1;
      }
      assert LinkAt(hole[..], holeIx, ka);
      nextPtr := hole[at].next;
      if nextPtr == NIL {
        return;
      }
      assert Holes()[ka].End() < LIMIT32 && Holes()[ka + 1].End() < LIMIT32;
      if hole[at].base + hole[at].len == hole[nextPtr].base {
        MergeNext(at, nextPtr, ka);
      }
    }

    /** One hop of merge_hole: the length is added on and the right neighbour's slot deleted. */
    method MergeNext(hp: int, nextPtr: int, ghost k: nat)
      requires Shape() && k + 1 < |holeIx| && hp == holeIx[k] && nextPtr == holeIx[k + 1]
      requires Touches(Holes(), k)
      modifies this`holeHead, this`freeSlots, this`holeIx, this`freeIx, hole
      ensures Shape()
      ensures holeIx == RemoveAt(old(holeIx), k + 1)
      ensures Holes() == Absorb(old(Holes()), k)
    {
      hide TwoLists, Absorb;
      Lengthen(hp, nextPtr, k);
      DeleteSlot(hp, nextPtr, k + 1);
    }

    /** The left of two neighbours grows by the length of the right one. */
    method Lengthen(hp: int, nextPtr: int, ghost k: nat)
      requires Shape() && k + 1 < |holeIx| && hp == holeIx[k] && nextPtr == holeIx[k + 1]
      modifies hole
      ensures Shape() && RemoveAt(Holes(), k + 1) == Absorb(old(Holes()), k)
    {
      hide TwoLists, Absorb, RemoveAt, HolesAt, Distinct, Linked, LinkAt, Apart;
      ghost var t := hole[..];
      SlotsInTable(t, holeHead, holeIx, freeSlots, freeIx);
      hole[hp] := hole[hp].(len := hole[hp].len + hole[nextPtr].len);
      SameLinks(t, hole[..], holeHead, holeIx, freeSlots, freeIx);
      AbsorbSlots(t, holeIx, k);
    }

    method Padding(base: nat, align: nat) returns (alignment: nat)
      requires 0 < align
      ensures alignment == Pad(base, align) < align
    {
      alignment := 0;
      if base % align != 0 {
        alignment := align - base % align;
      }
    }

    /** First fit with alignment.  None is the MemoryNotAvailable exception. */
    method Allocate(len: nat, align: nat) returns (r: Option<nat>)
      requires Valid() && 0 < align && len + align <= LIMIT64
      modifies this`holeHead, this`freeSlots, this`holeIx, this`freeIx, hole
      ensures Valid()
      ensures var hs := old(Holes()); var k := FitIndex(hs, len, align);
        if k < |hs| then r == Some(AllocAddr(hs[k], align)) && Holes() == Carve(hs, k, len, align)
        else r == None && Holes() == hs
    {
      hide Pad, Carve, FitIndex, TwoLists, Canonical;
      var prevPtr, hp, alignment, k := FindFit(len, align);
      if hp == NIL {
        return None;
      }
      CarveWithin(Holes(), k, len, align);
      GapBefore(Holes(), k);
      var oldBase := Take(prevPtr, hp, len, alignment, align, k);
      r := Some(oldBase);
    }

    /** The walk in allocate: the first hole that fits, the one before it, and the padding. */
    method FindFit(len: nat, align: nat) returns (prevPtr: int, hp: int, alignment: nat, ghost k: nat)
      requires Valid() && 0 < align
      ensures k == FitIndex(Holes(), len, align) <= |holeIx|
      ensures hp == At(holeIx, FitIndex(Holes(), len, align)) && (hp == NIL <==> FitIndex(Holes(), len, align) == |holeIx|)
      ensures k < |holeIx| ==> HoleList.Fits(Holes()[k], len, align) && alignment == Pad(hole[hp].base, align)
      ensures prevPtr == (if k == 0 then NIL else holeIx[k - 1])
    {
      hide Pad, Distinct, Apart, Canonical;
      prevPtr, hp, alignment, k := NIL, holeHead, 0, 0;
      while hp != NIL
        invariant k <= |holeIx| && hp == At(holeIx, k) && prevPtr == (if k == 0 then NIL else holeIx[k - 1])
        invariant forall i :: 0 <= i < k ==> !HoleList.Fits(Holes()[i], len, align)
        decreases |holeIx| - k
      {
        alignment := Padding(hole[hp].base, align);
        assert Holes()[k] == Hole(hole[hp].base, hole[hp].len);
        if hole[hp].len >= len + alignment {
          FitIndexUnique(Holes(), len, align, k);
          return;
        }
        assert LinkAt(hole[..], holeIx, k);
        prevPtr, hp := hp, hole[hp].next;
        k := k + 1;
      }
      FitIndexUnique(Holes(), len, align, k);
    }

    /** The branch of allocate that carves the fitting hole number k. */
    method Take(prevPtr: int, hp: int, len: nat, alignment: nat, ghost align: nat, ghost k: nat) returns (oldBase: nat)
      requires Shape() && 0 < align && k < |holeIx| && hp == holeIx[k]
      requires prevPtr == (if k == 0 then NIL else holeIx[k - 1])
      requires alignment == Pad(hole[hp].base, align) && HoleList.Fits(Holes()[k], len, align)
      requires 0 < k ==> Holes()[k - 1].End() < Holes()[k].base
      modifies this`holeHead, this`freeSlots, this`holeIx, this`freeIx, hole
      ensures Shape()
      ensures oldBase == AllocAddr(old(Holes())[k], align)
      ensures Holes() == Carve(old(Holes()), k, len, align)
    {
      hide Distinct, Apart, LinkAt, RemoveAt;
      ghost var hs := Holes();
      oldBase := hole[hp].base + alignment;
      Shrink(hp, len + alignment, k);
      if prevPtr != NIL {
        // The padding give-back cannot happen: the previous hole ends strictly below this one.
        assert Holes()[k - 1] == hs[k - 1];
        assert hole[prevPtr].base + hole[prevPtr].len != oldBase;
      }
      if hole[hp].len == 0 {
        DeleteSlot(prevPtr, hp, k);
        CutAway(hs, k, hs[k].base + len + alignment);
      }
    }

    /** Takes `cut` bytes off the front of hole number k. */
    method Shrink(hp: int, cut: nat, ghost k: nat)
      requires Shape() && k < |holeIx| && hp == holeIx[k] && cut <= hole[hp].len
      modifies hole
      ensures Shape() && hole[hp] == old(hole[hp]).(base := old(hole[hp].base) + cut, len := old(hole[hp].len) - cut)
      ensures var hs := old(Holes()); Holes() == hs[..k] + [Hole(hs[k].base + cut, hs[k].len - cut)] + hs[k + 1..]
    {
      ghost var t := hole[..];
      hole[hp] := hole[hp].(base := hole[hp].base + cut, len := hole[hp].len - cut);
      SameLinks(t, hole[..], holeHead, holeIx, freeSlots, freeIx);
    }

    method AllocatePages(len: nat) returns (r: Option<nat>)
      requires Valid() && len + 2 * PAGE <= LIMIT64
      modifies this`holeHead, this`freeSlots, this`holeIx, this`freeIx, hole
      ensures Valid()
      ensures var hs := old(Holes()); var k := FitIndex(hs, PageUp(len), PAGE);
        if k < |hs| then r == Some(AllocAddr(hs[k], PAGE)) && Holes() == Carve(hs, k, PageUp(len), PAGE)
        else r == None && Holes() == hs
    {
      r := Allocate(PageUp(len), PAGE);
    }

    /** Returns false where the source aborts: every slot of the table holds a hole. */
    method Free(addr: nat, len: nat) returns (ok: bool)
      requires Valid() && addr + len < LIMIT32 && RangeUsed(Holes(), addr, len)
      modifies this`holeHead, this`freeSlots, this`holeIx, this`freeIx, hole
      ensures Valid()
      ensures ok <==> len == 0 || |old(Holes())| < NR_HOLES
      ensures Holes() == if ok then Release(old(Holes()), addr, len) else old(Holes())
    {
      hide Canonical, Sorted, RangeUsed, HoleList.MergeHole, Insert, Distinct, Apart, LinkAt;
      if len == 0 {
        return true;
      }
      var newPtr := freeSlots;
      if newPtr == NIL {
        return false;
      }
      ghost var hs := Holes();
      ReleaseWithin(hs, addr, len);
      InsertWithin(hs, addr, len);
      var hp := holeHead;
      if hp == NIL || addr <= hole[hp].base {
        LinkSlot(NIL, newPtr, addr, len, 0);
        MergeHole(newPtr, 0);
        return true;
      }
      var prevPtr, p := FindPrev(addr);
      LinkSlot(prevPtr, newPtr, addr, len, p);
      MergeHole(prevPtr, p - 1);
      return true;
    }

    /** The walk in free: the last hole whose base is below addr. */
    method FindPrev(addr: nat) returns (prevPtr: int, ghost p: nat)
      requires Shape() && Holes() != [] && Holes()[0].base < addr
      ensures 0 < p <= |Holes()| && p == InsertPos(Holes(), addr)
      ensures 0 < InsertPos(Holes(), addr) <= |holeIx| && prevPtr == holeIx[InsertPos(Holes(), addr) - 1]
    {
      prevPtr, p := NIL, 0;
      var hp := holeHead;
      while hp != NIL && addr > hole[hp].base
        invariant p <= |holeIx| && hp == At(holeIx, p) && (0 < p ==> prevPtr == holeIx[p - 1])
        invariant forall i :: 0 <= i < p ==> Holes()[i].base < addr
        decreases |holeIx| - p
      {
        assert LinkAt(hole[..], holeIx, p);
        prevPtr, hp := hp, hole[hp].next;
        p := p + 1;
      }
      assert p < |holeIx| ==> Holes()[p].base == hole[hp].base;
      InsertPosUnique(Holes(), addr, p);
    }

    /** Takes the first free slot, fills it and links it in behind prevPtr, or at the head. */
    method LinkSlot(prevPtr: int, newPtr: int, addr: nat, len: nat, ghost p: nat)
      requires Shape() && freeIx != [] && newPtr == freeIx[0]
      requires p <= |holeIx| && prevPtr == (if p == 0 then NIL else holeIx[p - 1])
      modifies this`holeHead, this`freeSlots, this`holeIx, this`freeIx, hole
      ensures Shape()
      ensures holeIx == InsertAt(old(holeIx), p, newPtr)
      ensures Holes() == Insert(old(Holes()), p, Hole(addr, len))
    {
      ghost var t := hole[..];
      Link(t, holeHead, holeIx, freeSlots, freeIx, p, addr, len);
      LinkedHolesAt(t, holeHead, holeIx, newPtr, p, addr, len);
      freeSlots := hole[newPtr].next;
      if prevPtr == NIL {
        hole[newPtr] := Slot(holeHead, addr, len);
        holeHead := newPtr;
      } else {
        hole[newPtr] := Slot(hole[prevPtr].next, addr, len);
        hole[prevPtr] := hole[prevPtr].(next := newPtr);
      }
      assert hole[..] == LinkedIn(t, old(holeHead), holeIx, newPtr, p, addr, len);
      holeIx, freeIx := InsertAt(holeIx, p, newPtr), freeIx[1..];
    }

    method FreePages(addr: nat, len: nat) returns (ok: bool)
      requires Valid() && addr + PageUp(len) < LIMIT32 && RangeUsed(Holes(), addr, PageUp(len))
      modifies this`holeHead, this`freeSlots, this`holeIx, this`freeIx, hole
      ensures Valid()
      ensures ok <==> len == 0 || |old(Holes())| < NR_HOLES
      ensures Holes() == if ok then Release(old(Holes()), addr, PageUp(len)) else old(Holes())
    {
      hide Canonical, RangeUsed, Release, Shape, PageUp;
      ok := Free(addr, PageUp(len));
    }

    method Read8(addr: nat) returns (v: nat)
      ensures v == WordAt(words, addr)
    {
      v := WordAt(words, addr);
    }

    method Write8(addr: nat, v: nat)
      modifies this`words
      ensures words == old(words)[addr := v]
    {
      words := words[addr := v];
    }
  }

  /** Memory that was never written reads as zero. */
  function WordAt(words: map<nat, nat>, addr: nat): nat {
    if addr in words then words[addr] else 0
  }
}
