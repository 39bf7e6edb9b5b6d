/** The allocator's free memory as a list of holes: what allocate, free and
    merge_hole compute on the list, and what that means for the set of free
    addresses.  MemorySpace.dfy shows that the slot table computes these functions. */
module HoleList {
  import opened Arith

  datatype Hole = Hole(base: nat, len: nat) {
    function End(): nat { base + len }
    ghost predicate Has(x: int) { base <= x < End() }
  }

  /** Holes are non-empty and strictly apart, in address order. */
  ghost predicate Canonical(hs: seq<Hole>) {
    && (forall i :: 0 <= i < |hs| ==> 0 < hs[i].len)
    && (forall i, j :: 0 <= i < j < |hs| ==> hs[i].End() < hs[j].base)
  }

  ghost predicate Free(hs: seq<Hole>, x: int) {
    exists i :: 0 <= i < |hs| && hs[i].Has(x)
  }

  ghost predicate RangeFree(hs: seq<Hole>, a: int, n: nat) {
    forall x :: a <= x < a + n ==> Free(hs, x)
  }

  ghost predicate RangeUsed(hs: seq<Hole>, a: int, n: nat) {
    forall x :: a <= x < a + n ==> !Free(hs, x)
  }

  // ---- taking a list apart around one hole ----

  ghost predicate Below(hs: seq<Hole>, y: int) { forall i :: 0 <= i < |hs| ==> hs[i].End() < y }

  ghost predicate Above(hs: seq<Hole>, y: int) { forall i :: 0 <= i < |hs| ==> y < hs[i].base }

  ghost predicate UpTo(hs: seq<Hole>, y: int) { forall i :: 0 <= i < |hs| ==> hs[i].End() <= y }

  ghost predicate From(hs: seq<Hole>, y: int) { forall i :: 0 <= i < |hs| ==> y <= hs[i].base }

  /** In address order without overlap, but neighbours may touch. */
  ghost predicate Sorted(hs: seq<Hole>) {
    && (forall i :: 0 <= i < |hs| ==> 0 < hs[i].len)
    && (forall i, j :: 0 <= i < j < |hs| ==> hs[i].End() <= hs[j].base)
  }

  lemma FreeConcat(a: seq<Hole>, b: seq<Hole>, x: int)
    ensures Free(a + b, x) <==> Free(a, x) || Free(b, x)
  {
    var c := a + b;
    if Free(c, x) {
      var i :| 0 <= i < |c| && c[i].Has(x);
      assert if i < |a| then a[i].Has(x) else b[i - |a|].Has(x);
    }
    if Free(a, x) {
      var i :| 0 <= i < |a| && a[i].Has(x);
      assert c[i].Has(x);
    }
    if Free(b, x) {
      var i :| 0 <= i < |b| && b[i].Has(x);
      assert c[i + |a|].Has(x);
    }
  }

  lemma FreeOne(h: Hole, x: int)
    ensures Free([h], x) <==> h.Has(x)
  {
    assert [h][0] == h;
  }

  lemma FreeAroundAt(a: seq<Hole>, h: Hole, b: seq<Hole>, x: int)
    ensures Free(a + [h] + b, x) <==> Free(a, x) || h.Has(x) || Free(b, x)
  {
    FreeConcat(a + [h], b, x);
    FreeConcat(a, [h], x);
    FreeOne(h, x);
  }

  lemma FreeAround(a: seq<Hole>, h: Hole, b: seq<Hole>)
    ensures forall x :: Free(a + [h] + b, x) <==> Free(a, x) || h.Has(x) || Free(b, x)
  {
    forall x ensures Free(a + [h] + b, x) <==> Free(a, x) || h.Has(x) || Free(b, x) {
      FreeAroundAt(a, h, b, x);
    }
  }

  lemma CanonicalSplit(a: seq<Hole>, h: Hole, b: seq<Hole>)
    requires Canonical(a + [h] + b)
    ensures Canonical(a) && Canonical(b) && 0 < h.len && Below(a, h.base) && Above(b, h.End())
  {
    var c := a + [h] + b;
    assert c[|a|] == h;
    assert forall i :: 0 <= i < |a| ==> a[i] == c[i];
    assert forall i :: 0 <= i < |b| ==> b[i] == c[i + |a| + 1];
  }

  lemma CanonicalJoin(a: seq<Hole>, b: seq<Hole>, y: int)
    requires Canonical(a) && Canonical(b) && Below(a, y) && From(b, y)
    ensures Canonical(a + b)
  {
    var c := a + b;
    assert forall i :: 0 <= i < |c| ==> c[i] == if i < |a| then a[i] else b[i - |a|];
  }

  lemma CanonicalAround(a: seq<Hole>, h: Hole, b: seq<Hole>)
    requires Canonical(a) && Canonical(b) && 0 < h.len && Below(a, h.base) && Above(b, h.End())
    ensures Canonical(a + [h] + b)
  {
    CanonicalJoin([h], b, h.End() + 1);
    CanonicalJoin(a, [h] + b, h.base);
    assert a + [h] + b == a + ([h] + b);
  }

  lemma AboveNotFree(b: seq<Hole>, y: int)
    requires Above(b, y)
    ensures forall x :: Free(b, x) ==> y < x
  {
  }

  // ---- allocate ----

  /** Bytes skipped at the front of a hole to reach alignment. */
  function Pad(base: nat, align: nat): (p: nat)
    requires 0 < align
    ensures p < align
  {
    if base % align != 0 then align - base % align else 0
  }

  predicate Fits(h: Hole, len: nat, align: nat)
    requires 0 < align
  {
    h.len >= len + Pad(h.base, align)
  }

  /** The first hole that fits, or |hs|. */
  function FitIndex(hs: seq<Hole>, len: nat, align: nat): (k: nat)
    requires 0 < align
    ensures k <= |hs|
    ensures k < |hs| ==> Fits(hs[k], len, align)
    ensures forall i :: 0 <= i < k ==> !Fits(hs[i], len, align)
  {
    if hs == [] || Fits(hs[0], len, align) then 0 else FitIndex(hs[1..], len, align) + 1
  }

  function AllocAddr(h: Hole, align: nat): nat
    requires 0 < align
  {
    h.base + Pad(h.base, align)
  }

  /** Hole k loses its first `len` bytes and the padding in front of them. */
  function Carve(hs: seq<Hole>, k: nat, len: nat, align: nat): seq<Hole>
    requires 0 < align && k < |hs| && Fits(hs[k], len, align)
  {
    var cut := len + Pad(hs[k].base, align);
    if hs[k].len == cut then hs[..k] + hs[k + 1..]
    else hs[..k] + [Hole(hs[k].base + cut, hs[k].len - cut)] + hs[k + 1..]
  }

  lemma {:induction false} LeastAligned(base: nat, align: nat, b: nat)
    requires 0 < align
    ensures (base + Pad(base, align)) % align == 0
    ensures base <= b && b % align == 0 ==> base + Pad(base, align) <= b
  {
    var q, r, t := base / align, base % align, b / align;
    assert base == q * align + r && b == t * align + b % align;
    assert (q + 1) * align == q * align + align;
    MulMod(q, align);
    MulMod(q + 1, align);
    MulMono(t, q, align);
    MulMono(q + 1, t, align);
  }

  /** A free range never straddles two holes: neighbours are not adjacent. */
  lemma RangeInOneHole(hs: seq<Hole>, a: int, n: nat) returns (i: nat)
    requires Canonical(hs) && 0 < n && RangeFree(hs, a, n)
    ensures i < |hs| && hs[i].base <= a && a + n <= hs[i].End()
  {
    assert Free(hs, a);
    i :| 0 <= i < |hs| && hs[i].Has(a);
    assert forall j :: 0 <= j < |hs| ==> !hs[j].Has(hs[i].End());
    assert !Free(hs, hs[i].End());
  }

  /** First fit is least fit: the address handed out is the least aligned address
      whose whole range is free, and no hole fits exactly when there is none. */
  lemma {:induction false} AllocateIsLeastFit(hs: seq<Hole>, len: nat, align: nat)
    requires Canonical(hs) && 0 < len && 0 < align
    ensures var k := FitIndex(hs, len, align);
      if k < |hs| then
        var a := AllocAddr(hs[k], align);
        && a % align == 0
        && RangeFree(hs, a, len)
        && (forall b: nat :: b % align == 0 && RangeFree(hs, b, len) ==> a <= b)
      else
        forall b: nat :: b % align == 0 ==> !RangeFree(hs, b, len)
  {
    var k := FitIndex(hs, len, align);
    forall b: nat | b % align == 0 && RangeFree(hs, b, len)
      ensures k < |hs| && AllocAddr(hs[k], align) <= b
    {
      var i := RangeInOneHole(hs, b, len);
      LeastAligned(hs[i].base, align, b);
      assert Fits(hs[i], len, align);
      assert k < i ==> hs[k].End() < hs[i].base;
    }
    if k < |hs| {
      LeastAligned(hs[k].base, align, 0);
      var a := AllocAddr(hs[k], align);
      forall x | a <= x < a + len ensures Free(hs, x) { assert hs[k].Has(x); }
    }
  }

  /** What allocation takes out of the free set: the range handed out together
      with the padding in front of it, which no later free gives back. */
  lemma {:induction false} CarveExact(hs: seq<Hole>, k: nat, len: nat, align: nat)
    requires Canonical(hs) && 0 < align && k < |hs| && Fits(hs[k], len, align)
    ensures Canonical(Carve(hs, k, len, align))
    ensures forall x :: Free(Carve(hs, k, len, align), x) <==>
                        Free(hs, x) && !(hs[k].base <= x < AllocAddr(hs[k], align) + len)
  {
    var a, h, b := hs[..k], hs[k], hs[k + 1..];
    assert hs == a + [h] + b;
    var cut := len + Pad(h.base, align);
    if h.len == cut {
      DropMiddle(a, h, b);
    } else {
      TrimMiddle(a, h, b, cut);
    }
  }

  lemma DropMiddle(a: seq<Hole>, h: Hole, b: seq<Hole>)
    requires Canonical(a + [h] + b)
    ensures Canonical(a + b)
    ensures forall x :: Free(a + b, x) <==> Free(a + [h] + b, x) && !h.Has(x)
  {
    CanonicalSplit(a, h, b);
    CanonicalJoin(a, b, h.base);
    forall x ensures Free(a + b, x) <==> Free(a + [h] + b, x) && !h.Has(x) {
      FreeConcat(a, b, x);
      FreeAroundAt(a, h, b, x);
      OutsideMiddle(a, h, b, x);
    }
  }

  lemma TrimMiddle(a: seq<Hole>, h: Hole, b: seq<Hole>, cut: nat)
    requires Canonical(a + [h] + b) && cut < h.len
    ensures Canonical(a + [Hole(h.base + cut, h.len - cut)] + b)
    ensures forall x :: Free(a + [Hole(h.base + cut, h.len - cut)] + b, x) <==>
                        Free(a + [h] + b, x) && !(h.base <= x < h.base + cut)
  {
    var h' := Hole(h.base + cut, h.len - cut);
    CanonicalSplit(a, h, b);
    CanonicalAround(a, h', b);
    forall x ensures Free(a + [h'] + b, x) <==> Free(a + [h] + b, x) && !(h.base <= x < h.base + cut) {
      FreeAroundAt(a, h', b, x);
      FreeAroundAt(a, h, b, x);
      OutsideMiddle(a, h, b, x);
    }
  }

  lemma OutsideMiddle(a: seq<Hole>, h: Hole, b: seq<Hole>, x: int)
    requires Below(a, h.base) && Above(b, h.End())
    ensures h.Has(x) ==> !Free(a, x) && !Free(b, x)
  {
  }

  /** The range handed out was free and no longer is; what was in use stays in use. */
  lemma AllocatedRange(hs: seq<Hole>, k: nat, len: nat, align: nat)
    requires Canonical(hs) && 0 < align && k < |hs| && Fits(hs[k], len, align)
    ensures var a := AllocAddr(hs[k], align);
      && RangeFree(hs, a, len) && a + len <= hs[k].End()
      && RangeUsed(Carve(hs, k, len, align), a, len)
    ensures forall q, n: nat :: RangeUsed(hs, q, n) ==> RangeUsed(Carve(hs, k, len, align), q, n)
  {
    CarveExact(hs, k, len, align);
    var a := AllocAddr(hs[k], align);
    forall x | a <= x < a + len ensures Free(hs, x) { assert hs[k].Has(x); }
  }

  // ---- free ----

  /** Where the new hole goes: before the first hole whose base is not below it. */
  function InsertPos(hs: seq<Hole>, addr: nat): (p: nat)
    ensures p <= |hs|
    ensures forall i :: 0 <= i < p ==> hs[i].base < addr
    ensures p < |hs| ==> addr <= hs[p].base
  {
    if hs == [] || addr <= hs[0].base then 0 else InsertPos(hs[1..], addr) + 1
  }

  function Insert(hs: seq<Hole>, p: nat, h: Hole): seq<Hole>
    requires p <= |hs|
  {
    hs[..p] + [h] + hs[p..]
  }

  predicate Touches(hs: seq<Hole>, k: nat) {
    k + 1 < |hs| && hs[k].End() == hs[k + 1].base
  }

  function Absorb(hs: seq<Hole>, k: nat): seq<Hole>
    requires k + 1 < |hs|
  {
    hs[..k] + [Hole(hs[k].base, hs[k].len + hs[k + 1].len)] + hs[k + 2..]
  }

  /** merge_hole: hole k swallows a touching right neighbour; then the same check
      for hole k again, or for k + 1 when nothing was swallowed. */
  function MergeHole(hs: seq<Hole>, k: nat): seq<Hole> {
    if Touches(hs, k) then
      var m := Absorb(hs, k);
      if Touches(m, k) then Absorb(m, k) else m
    else if Touches(hs, k + 1) then Absorb(hs, k + 1)
    else hs
  }

  function Release(hs: seq<Hole>, addr: nat, len: nat): seq<Hole> {
    if len == 0 then hs
    else
      var p := InsertPos(hs, addr);
      MergeHole(Insert(hs, p, Hole(addr, len)), if p == 0 then 0 else p - 1)
  }

  /** The last hole below y joins on when it ends at y: what is left of the list, and
      where the joined hole then begins. */
  ghost function LeftRest(a: seq<Hole>, y: nat): seq<Hole> {
    if a != [] && a[|a| - 1].End() == y then a[..|a| - 1] else a
  }

  ghost function LeftEdge(a: seq<Hole>, y: nat): nat {
    if a != [] && a[|a| - 1].End() == y then a[|a| - 1].base else y
  }

  ghost function RightRest(b: seq<Hole>, y: nat): seq<Hole> {
    if b != [] && y == b[0].base then b[1..] else b
  }

  ghost function RightEdge(b: seq<Hole>, y: nat): nat {
    if b != [] && y == b[0].base then b[0].End() else y
  }

  /** The list around the freed range, with each neighbour that touches it joined on. */
  ghost function Joined(a: seq<Hole>, h: Hole, b: seq<Hole>): seq<Hole> {
    var lo, hi := LeftEdge(a, h.base), RightEdge(b, h.End());
    LeftRest(a, h.base) + [Hole(lo, if lo <= hi then hi - lo else 0)] + RightRest(b, h.End())
  }

  lemma {:induction false} ReleaseShape(hs: seq<Hole>, addr: nat, len: nat)
    requires Canonical(hs) && 0 < len && RangeUsed(hs, addr, len)
    ensures var p := InsertPos(hs, addr);
      Release(hs, addr, len) == Joined(hs[..p], Hole(addr, len), hs[p..])
  {
    var p := InsertPos(hs, addr);
    SplitAt(hs, addr, len);
    MergeAround(hs[..p], Hole(addr, len), hs[p..]);
  }

  lemma MergeAround(a: seq<Hole>, h: Hole, b: seq<Hole>)
    requires Canonical(a) && Canonical(b) && 0 < h.len
    requires UpTo(a, h.base) && From(b, h.End())
    ensures MergeHole(a + [h] + b, if a == [] then 0 else |a| - 1) == Joined(a, h, b)
  {
    if a == [] {
      assert a + [h] + b == [h] + b;
      MergeFront(h, b);
    } else {
      MergeMiddle(a, h, b);
    }
  }

  lemma {:induction false} MergeFront(h: Hole, b: seq<Hole>)
    requires Canonical(b) && 0 < h.len && From(b, h.End())
    ensures MergeHole([h] + b, 0) == Joined([], h, b)
  {
    var ins := [h] + b;
    assert forall i :: 0 < i < |ins| ==> ins[i] == b[i - 1];
    if Touches(ins, 0) {
      var m := Absorb(ins, 0);
      assert m == [Hole(h.base, h.len + b[0].len)] + b[1..];
      assert !Touches(m, 0);
    } else {
      assert !Touches(ins, 1);
    }
  }

  lemma {:induction false} MergeMiddle(a: seq<Hole>, h: Hole, b: seq<Hole>)
    requires a != [] && Canonical(a) && Canonical(b) && 0 < h.len
    requires UpTo(a, h.base) && From(b, h.End())
    ensures MergeHole(a + [h] + b, |a| - 1) == Joined(a, h, b)
  {
    hide Canonical, UpTo, From;
    var k := |a| - 1;
    var ins := a + [h] + b;
    assert ins[k] == a[k] && ins[k + 1] == h;
    if Touches(ins, k) {
      MergeLeft(a, h, b);
    } else if Touches(ins, k + 1) {
      assert Absorb(ins, k + 1) == a + [Hole(h.base, h.len + b[0].len)] + b[1..];
    }
  }

  /** The inserted hole touches its left neighbour. */
  lemma MergeLeft(a: seq<Hole>, h: Hole, b: seq<Hole>)
    requires a != [] && a[|a| - 1].End() == h.base
    ensures MergeHole(a + [h] + b, |a| - 1) == Joined(a, h, b)
  {
    hide Canonical, UpTo, From;
    var k := |a| - 1;
    var ins := a + [h] + b;
    var g := Hole(a[k].base, a[k].len + h.len);
    var m := Absorb(ins, k);
    assert m == a[..k] + [g] + b;
    assert m[k] == g && g.End() == h.End();
    if b != [] && g.End() == b[0].base {
      assert m[k + 1] == b[0];
      assert Absorb(m, k) == a[..k] + [Hole(g.base, g.len + b[0].len)] + b[1..];
    }
  }

  /** A used range lies wholly between the holes on either side of its insertion point. */
  lemma SplitAt(hs: seq<Hole>, addr: nat, len: nat)
    requires Canonical(hs) && 0 < len && RangeUsed(hs, addr, len)
    ensures var p := InsertPos(hs, addr);
      Canonical(hs[..p]) && Canonical(hs[p..]) && UpTo(hs[..p], addr) && From(hs[p..], addr + len)
  {
    var p := InsertPos(hs, addr);
    forall i | 0 <= i < p ensures hs[i].End() <= addr {
      assert hs[i].Has(addr) ==> Free(hs, addr);
    }
    forall i | p <= i < |hs| ensures addr + len <= hs[i].base {
      assert hs[i].Has(hs[i].base) ==> Free(hs, hs[i].base);
      assert p < i ==> hs[p].End() < hs[i].base;
    }
  }

  lemma InsertSorted(hs: seq<Hole>, addr: nat, len: nat)
    requires Canonical(hs) && 0 < len && RangeUsed(hs, addr, len)
    ensures Sorted(Insert(hs, InsertPos(hs, addr), Hole(addr, len)))
  {
    var p := InsertPos(hs, addr);
    SplitAt(hs, addr, len);
    SortedAround(hs[..p], Hole(addr, len), hs[p..]);
  }

  lemma SortedAround(a: seq<Hole>, h: Hole, b: seq<Hole>)
    requires Canonical(a) && Canonical(b) && 0 < h.len && UpTo(a, h.base) && From(b, h.End())
    ensures Sorted(a + [h] + b)
  {
    var c := a + [h] + b;
    assert forall i :: 0 <= i < |c| ==>
      c[i] == if i < |a| then a[i] else if i == |a| then h else b[i - |a| - 1];
  }

  /** free adds exactly the returned range and coalesces completely. */
  lemma {:induction false} ReleaseExact(hs: seq<Hole>, addr: nat, len: nat)
    requires Canonical(hs) && RangeUsed(hs, addr, len)
    ensures Canonical(Release(hs, addr, len))
    ensures forall x :: Free(Release(hs, addr, len), x) <==> Free(hs, x) || addr <= x < addr + len
  {
    hide Canonical, Joined, InsertPos, UpTo, From, RangeUsed, MergeHole, Insert;
    if len != 0 {
      var p := InsertPos(hs, addr);
      ReleaseShape(hs, addr, len);
      SplitAt(hs, addr, len);
      JoinedExact(hs[..p], Hole(addr, len), hs[p..]);
      forall x
        ensures Free(Release(hs, addr, len), x) <==> Free(hs, x) || addr <= x < addr + len
      {
        assert hs == hs[..p] + hs[p..];
        FreeConcat(hs[..p], hs[p..], x);
      }
    }
  }

  lemma {:induction false} JoinedExact(a: seq<Hole>, h: Hole, b: seq<Hole>)
    requires Canonical(a) && Canonical(b) && 0 < h.len
    requires UpTo(a, h.base) && From(b, h.End())
    ensures Canonical(Joined(a, h, b))
    ensures forall x :: Free(Joined(a, h, b), x) <==> Free(a, x) || h.Has(x) || Free(b, x)
  {
    JoinedCanonical(a, h, b);
    forall x ensures Free(Joined(a, h, b), x) <==> Free(a, x) || h.Has(x) || Free(b, x) {
      JoinedFree(a, h, b, x);
    }
  }

  lemma JoinedCanonical(a: seq<Hole>, h: Hole, b: seq<Hole>)
    requires Canonical(a) && Canonical(b) && 0 < h.len
    requires UpTo(a, h.base) && From(b, h.End())
    ensures Canonical(Joined(a, h, b))
  {
    hide Canonical, Below, Above;
    LeftPart(a, h.base);
    RightPart(b, h.End());
    var lo, hi := LeftEdge(a, h.base), RightEdge(b, h.End());
    CanonicalAround(LeftRest(a, h.base), Hole(lo, hi - lo), RightRest(b, h.End()));
  }

  lemma LeftPart(a: seq<Hole>, y: nat)
    requires Canonical(a) && UpTo(a, y)
    ensures Canonical(LeftRest(a, y)) && Below(LeftRest(a, y), LeftEdge(a, y)) && LeftEdge(a, y) <= y
  {
    if a != [] {
      assert forall i :: 0 <= i < |a| - 1 ==> a[i].End() < a[|a| - 1].base;
    }
  }

  lemma RightPart(b: seq<Hole>, y: nat)
    requires Canonical(b) && From(b, y)
    ensures Canonical(RightRest(b, y)) && Above(RightRest(b, y), RightEdge(b, y)) && y <= RightEdge(b, y)
  {
    if b != [] {
      assert forall i :: 0 < i < |b| ==> b[0].End() < b[i].base;
    }
  }

  lemma JoinedFree(a: seq<Hole>, h: Hole, b: seq<Hole>, x: int)
    requires a != [] ==> a[|a| - 1].End() <= h.base
    requires b != [] ==> h.End() <= b[0].base
    ensures Free(Joined(a, h, b), x) <==> Free(a, x) || h.Has(x) || Free(b, x)
  {
    var lo, hi := LeftEdge(a, h.base), RightEdge(b, h.End());
    FreeAroundAt(LeftRest(a, h.base), Hole(lo, hi - lo), RightRest(b, h.End()), x);
    if a != [] { FreeLast(a, x); }
    if b != [] { FreeHead(b, x); }
  }

  lemma FreeLast(a: seq<Hole>, x: int)
    requires a != []
    ensures Free(a, x) <==> Free(a[..|a| - 1], x) || a[|a| - 1].Has(x)
  {
    assert a == a[..|a| - 1] + [a[|a| - 1]];
    FreeConcat(a[..|a| - 1], [a[|a| - 1]], x);
    FreeOne(a[|a| - 1], x);
  }

  lemma FreeHead(b: seq<Hole>, x: int)
    requires b != []
    ensures Free(b, x) <==> b[0].Has(x) || Free(b[1..], x)
  {
    assert b == [b[0]] + b[1..];
    FreeConcat([b[0]], b[1..], x);
    FreeOne(b[0], x);
  }

  /** Bounding the free addresses bounds the ends of the holes. */
  lemma EndsWithin(hs: seq<Hole>, lim: int)
    requires Canonical(hs) && forall x :: Free(hs, x) ==> x < lim
    ensures UpTo(hs, lim)
  {
    forall i | 0 <= i < |hs| ensures hs[i].End() <= lim {
      assert hs[i].Has(hs[i].End() - 1);
      assert Free(hs, hs[i].End() - 1);
    }
  }

  lemma FreeWithin(hs: seq<Hole>, lim: int)
    requires UpTo(hs, lim)
    ensures forall x :: Free(hs, x) ==> x < lim
  {
  }

  // ---- canonical form ----

  lemma FirstHole(hs: seq<Hole>)
    requires Canonical(hs) && hs != []
    ensures Canonical(hs[1..])
    ensures forall x :: Free(hs, x) ==> hs[0].base <= x
    ensures forall x :: hs[0].Has(x) ==> Free(hs, x)
    ensures !Free(hs, hs[0].End())
    ensures forall x :: Free(hs[1..], x) <==> Free(hs, x) && hs[0].End() <= x
  {
    assert hs == [] + [hs[0]] + hs[1..];
    FreeAround([], hs[0], hs[1..]);
    CanonicalSplit([], hs[0], hs[1..]);
    AboveNotFree(hs[1..], hs[0].End());
  }

  lemma SameEnd(g: Hole, h: Hole)
    ensures g.base == h.base && 0 < g.len && 0 < h.len && !h.Has(g.End()) && !g.Has(h.End()) ==> g == h
  {
  }

  /** The hole list is determined by the set of free addresses. */
  lemma {:induction false} CanonicalUnique(a: seq<Hole>, b: seq<Hole>)
    requires Canonical(a) && Canonical(b)
    requires forall x :: Free(a, x) <==> Free(b, x)
    ensures a == b
  {
    if a != [] { FirstHole(a); }
    if b != [] { FirstHole(b); }
    if a == [] {
      assert b != [] ==> b[0].Has(b[0].base);
    } else {
      assert a[0].Has(a[0].base);
      assert Free(a, a[0].base);
      assert b != [];
      assert b[0].Has(b[0].base);
      assert a[0].base == b[0].base;
      SameEnd(a[0], b[0]);
      assert !b[0].Has(a[0].End()) && !a[0].Has(b[0].End());
      CanonicalUnique(a[1..], b[1..]);
      assert a == [a[0]] + a[1..] && b == [b[0]] + b[1..];
    }
  }

  /** free undoes allocate exactly when allocate skipped no padding. */
  lemma {:induction false} FreeUndoesAllocate(hs: seq<Hole>, k: nat, len: nat, align: nat)
    requires Canonical(hs) && 0 < len && 0 < align && k < |hs| && Fits(hs[k], len, align)
    ensures Release(Carve(hs, k, len, align), AllocAddr(hs[k], align), len) == hs
            <==> hs[k].base % align == 0
  {
    var c := Carve(hs, k, len, align);
    var a := AllocAddr(hs[k], align);
    CarveExact(hs, k, len, align);
    ReleaseExact(c, a, len);
    var r := Release(c, a, len);
    assert forall x :: hs[k].Has(x) ==> Free(hs, x);
    if hs[k].base % align == 0 {
      CanonicalUnique(r, hs);
    } else {
      assert hs[k].Has(hs[k].base);
      assert !Free(r, hs[k].base);
    }
  }
}
