/** Page-granular use of the allocator over one seeded region: the holes and the live
    blocks always partition the region, so the holes are determined by the live blocks
    and there is at most one hole more than there are live blocks. */
module Arena {
  import opened Arith
  import opened HoleList
  import opened Memory

  datatype Block = Block(addr: nat, len: nat) {
    function End(): nat { addr + len }
    ghost predicate Has(x: int) { addr <= x < End() }
    ghost predicate PageBlock() { 0 < len && addr % PAGE == 0 && len % PAGE == 0 }
  }

  ghost predicate Disjoint(b: Block, c: Block) { b.End() <= c.addr || c.End() <= b.addr }

  /** Some live block contains x. */
  ghost predicate Taken<K>(live: map<K, Block>, x: int) {
    exists k :: k in live && live[k].Has(x)
  }

  ghost predicate Blocks<K>(lo: nat, hi: nat, live: map<K, Block>) {
    && (forall k :: k in live ==> live[k].PageBlock() && lo <= live[k].addr && live[k].End() <= hi)
    && (forall j, k :: j in live && k in live && j != k ==> Disjoint(live[j], live[k]))
  }

  ghost predicate PageHoles(hs: seq<Hole>) {
    forall i :: 0 <= i < |hs| ==> hs[i].base % PAGE == 0 && hs[i].len % PAGE == 0
  }

  /** Every address of [lo, hi) is in exactly one hole or exactly one live block. */
  ghost predicate Partition<K>(lo: nat, hi: nat, hs: seq<Hole>, live: map<K, Block>) {
    && Canonical(hs) && PageHoles(hs)
    && Blocks(lo, hi, live)
    && (forall x :: Free(hs, x) <==> lo <= x < hi && !Taken(live, x))
  }

  // ---- what each operation keeps ----

  lemma SeededPartition<K>(lo: nat, hi: nat)
    requires lo < hi && lo % PAGE == 0 && hi % PAGE == 0
    ensures Partition<K>(lo, hi, Release([], lo, hi - lo), map[])
  {
    assert Release([], lo, hi - lo) == [Hole(lo, hi - lo)];
    var h := Hole(lo, hi - lo);
    forall x ensures Free([h], x) <==> h.Has(x) { FreeOne(h, x); }
  }

  lemma PagePad(base: nat)
    requires base % PAGE == 0
    ensures Pad(base, PAGE) == 0
  {
  }

  lemma TakenAdd<K>(live: map<K, Block>, k: K, b: Block, x: int)
    requires k !in live
    ensures Taken(live[k := b], x) <==> Taken(live, x) || b.Has(x)
  {
    var live' := live[k := b];
    if b.Has(x) { assert live'[k].Has(x); }
    if Taken(live, x) {
      var j :| j in live && live[j].Has(x);
      assert live'[j].Has(x);
    }
  }

  lemma TakenRemove<K>(live: map<K, Block>, k: K, x: int)
    requires k in live
    requires forall j :: j in live && j != k ==> Disjoint(live[j], live[k])
    ensures Taken(live - {k}, x) <==> Taken(live, x) && !live[k].Has(x)
  {
    if Taken(live, x) && !live[k].Has(x) {
      var j :| j in live && live[j].Has(x);
      assert j in live - {k};
    }
    if Taken(live - {k}, x) {
      var j :| j in live - {k} && (live - {k})[j].Has(x);
      assert j in live && live[j].Has(x);
    }
  }

  /** A page allocation hands out a block disjoint from every live one. */
  lemma {:induction false} AllocateKeeps<K>(lo: nat, hi: nat, hs: seq<Hole>, live: map<K, Block>, size: nat, k: K)
    requires Partition(lo, hi, hs, live) && 0 < size && size % PAGE == 0 && k !in live
    requires FitIndex(hs, size, PAGE) < |hs|
    ensures var i := FitIndex(hs, size, PAGE);
      && AllocAddr(hs[i], PAGE) == hs[i].base
      && Partition(lo, hi, Carve(hs, i, size, PAGE), live[k := Block(hs[i].base, size)])
  {
    var i := FitIndex(hs, size, PAGE);
    var b := Block(hs[i].base, size);
    PagePad(hs[i].base);
    CarveExact(hs, i, size, PAGE);
    CarvePages(hs, i, size);
    forall x | b.Has(x) ensures Free(hs, x) { assert hs[i].Has(x); }
    FreshBlock(lo, hi, hs, live, b);
    var live' := live[k := b];
    forall x ensures Free(Carve(hs, i, size, PAGE), x) <==> lo <= x < hi && !Taken(live', x) {
      TakenAdd(live, k, b, x);
    }
  }

  lemma CarvePages(hs: seq<Hole>, i: nat, size: nat)
    requires PageHoles(hs) && i < |hs| && size % PAGE == 0 && HoleList.Fits(hs[i], size, PAGE)
    ensures PageHoles(Carve(hs, i, size, PAGE))
  {
    PagePad(hs[i].base);
  }

  lemma FreshBlock<K>(lo: nat, hi: nat, hs: seq<Hole>, live: map<K, Block>, b: Block)
    requires Partition(lo, hi, hs, live) && 0 < b.len && forall x :: b.Has(x) ==> Free(hs, x)
    ensures lo <= b.addr && b.End() <= hi
    ensures forall j :: j in live ==> Disjoint(live[j], b)
  {
    assert b.Has(b.addr) && b.Has(b.End() - 1);
    forall j | j in live ensures Disjoint(live[j], b) {
      assert live[j].Has(live[j].addr) && live[j].Has(b.addr) ==> Taken(live, b.addr);
      assert live[j].Has(live[j].addr);
      assert Taken(live, live[j].addr);
    }
  }

  /** Freeing a live block. */
  lemma {:induction false} FreeKeeps<K>(lo: nat, hi: nat, hs: seq<Hole>, live: map<K, Block>, k: K)
    requires Partition(lo, hi, hs, live) && k in live
    ensures RangeUsed(hs, live[k].addr, live[k].len)
    ensures Partition(lo, hi, Release(hs, live[k].addr, live[k].len), live - {k})
  {
    var b := live[k];
    forall x | b.Has(x) ensures !Free(hs, x) { assert Taken(live, x); }
    ReleaseExact(hs, b.addr, b.len);
    ReleasePages(hs, b.addr, b.len);
    var live' := live - {k};
    forall x ensures Free(Release(hs, b.addr, b.len), x) <==> lo <= x < hi && !Taken(live', x) {
      TakenRemove(live, k, x);
    }
  }

  lemma ReleasePages(hs: seq<Hole>, addr: nat, len: nat)
    requires PageHoles(hs) && addr % PAGE == 0 && len % PAGE == 0
    ensures PageHoles(Release(hs, addr, len))
  {
    if len != 0 {
      var p := InsertPos(hs, addr);
      var ins := Insert(hs, p, Hole(addr, len));
      assert PageHoles(ins);
      var k := if p == 0 then 0 else p - 1;
      if Touches(ins, k) {
        AbsorbPages(ins, k);
        if Touches(Absorb(ins, k), k) { AbsorbPages(Absorb(ins, k), k); }
      } else if Touches(ins, k + 1) {
        AbsorbPages(ins, k + 1);
      }
    }
  }

  lemma AbsorbPages(hs: seq<Hole>, k: nat)
    requires PageHoles(hs) && k + 1 < |hs|
    ensures PageHoles(Absorb(hs, k))
  {
  }

  // ---- consequences ----

  /** The hole list is a function of the live blocks: whatever the order of allocations
      and frees in between, the same blocks live means the same holes. */
  lemma {:induction false} SameBlocksSameHoles<K>(lo: nat, hi: nat, hs: seq<Hole>, hs': seq<Hole>, live: map<K, Block>)
    requires Partition(lo, hi, hs, live) && Partition(lo, hi, hs', live)
    ensures hs == hs'
  {
    CanonicalUnique(hs, hs');
  }

  /** And the other way round: more blocks live means other holes. */
  lemma {:induction false} SameHolesSameBlocks<K>(lo: nat, hi: nat, hs: seq<Hole>, live: map<K, Block>, fewer: map<K, Block>)
    requires Partition(lo, hi, hs, live) && Partition(lo, hi, hs, fewer)
    requires forall k :: k in fewer ==> k in live && live[k] == fewer[k]
    ensures live == fewer
  {
    forall k | k in live ensures k in fewer {
      var x := live[k].addr;
      assert live[k].Has(x);
      assert Taken(live, x) && !Free(hs, x) && Taken(fewer, x);
      var j :| j in fewer && fewer[j].Has(x);
      assert j != k ==> Disjoint(live[j], live[k]);
    }
  }

  /** With nothing live the region is one hole again. */
  lemma {:induction false} NothingLive<K>(lo: nat, hi: nat, hs: seq<Hole>)
    requires lo < hi && lo % PAGE == 0 && hi % PAGE == 0 && Partition<K>(lo, hi, hs, map[])
    ensures hs == [Hole(lo, hi - lo)]
  {
    SeededPartition<K>(lo, hi);
    SameBlocksSameHoles<K>(lo, hi, hs, Release([], lo, hi - lo), map[]);
    assert Release([], lo, hi - lo) == [Hole(lo, hi - lo)];
  }

  /** A live block ending in the gap to the right of each hole but the last. */
  ghost predicate GapOwner<K>(hs: seq<Hole>, live: map<K, Block>, i: nat, k: K) {
    i < |hs| && k in live && live[k].Has(hs[i].End())
  }

  lemma GapHasOwner<K>(lo: nat, hi: nat, hs: seq<Hole>, live: map<K, Block>, i: nat) returns (k: K)
    requires Partition(lo, hi, hs, live) && i + 1 < |hs|
    ensures GapOwner(hs, live, i, k)
  {
    var e := hs[i].End();
    assert hs[i].End() < hs[i + 1].base;
    assert hs[i].Has(hs[i].base) && hs[i + 1].Has(hs[i + 1].base);
    assert Free(hs, hs[i].base) && Free(hs, hs[i + 1].base);
    assert !Free(hs, e) by {
      assert forall j :: 0 <= j < |hs| ==> !hs[j].Has(e);
    }
    assert Taken(live, e);
    k :| k in live && live[k].Has(e);
  }

  lemma OwnersDiffer<K>(lo: nat, hi: nat, hs: seq<Hole>, live: map<K, Block>, i: nat, j: nat, k: K)
    requires Partition(lo, hi, hs, live) && i < j && GapOwner(hs, live, i, k)
    ensures !GapOwner(hs, live, j, k)
  {
    if j < |hs| {
      assert hs[i].End() < hs[j].base;
      assert hs[j].Has(hs[j].base);
      var y := hs[j].base;
      assert Free(hs, y) && !Taken(live, y);
      assert !live[k].Has(y);
    }
  }

  /** The owners of the first n gaps are n different live blocks. */
  lemma {:induction false} OwnersOf<K>(lo: nat, hi: nat, hs: seq<Hole>, live: map<K, Block>, n: nat) returns (ks: set<K>)
    requires Partition(lo, hi, hs, live) && n < |hs|
    ensures |ks| == n && ks <= live.Keys
    ensures forall k :: k in ks ==> exists i :: 0 <= i < n && GapOwner(hs, live, i, k)
  {
    ks := {};
    if n > 0 {
      var before := OwnersOf(lo, hi, hs, live, n - 1);
      var k := GapHasOwner(lo, hi, hs, live, n - 1);
      if k in before {
        var i :| 0 <= i < n - 1 && GapOwner(hs, live, i, k);
        OwnersDiffer(lo, hi, hs, live, i, n - 1, k);
      }
      ks := before + {k};
    }
  }

  /** At most one hole more than live blocks, so the table of 512 slots cannot run out
      while at most 510 blocks are live. */
  lemma {:induction false} HolesBounded<K>(lo: nat, hi: nat, hs: seq<Hole>, live: map<K, Block>)
    requires Partition(lo, hi, hs, live)
    ensures |hs| <= |live| + 1
  {
    if hs != [] {
      var ks := OwnersOf(lo, hi, hs, live, |hs| - 1);
      SubsetSize(ks, live.Keys);
      assert |live.Keys| == |live|;
    }
  }

  lemma SubsetSize<T>(a: set<T>, b: set<T>)
    requires a <= b
    ensures |a| <= |b|
  {
    assert |b - a| + |a| == |b| by { assert b == (b - a) + a; }
  }

  // ---- enough room ----

  /** The addresses a, a + 1, ..., a + n - 1. */
  ghost function Span(a: int, n: nat): (s: set<int>)
    ensures |s| == n && forall x :: x in s <==> a <= x < a + n
  {
    if n == 0 then {} else Span(a, n - 1) + {a + n - 1}
  }

  /** The free addresses, counted hole by hole. */
  lemma {:induction false} HolesCover(hs: seq<Hole>, b: nat) returns (s: set<int>)
    requires forall i :: 0 <= i < |hs| ==> hs[i].len <= b
    ensures |s| <= Times(|hs|, b) && forall x :: Free(hs, x) ==> x in s
    decreases |hs|
  {
    hide Times;
    s := {};
    if hs != [] {
      var t := HolesCover(hs[1..], b);
      s := Span(hs[0].base, hs[0].len) + t;
      TimesSucc(|hs| - 1, b);
      forall x | Free(hs, x) ensures x in s {
        var i :| 0 <= i < |hs| && hs[i].Has(x);
        assert 0 < i ==> hs[1..][i - 1].Has(x);
      }
    }
  }

  /** The addresses in use, counted block by block. */
  lemma {:induction false} BlocksCover<K>(live: map<K, Block>, m: nat) returns (s: set<int>)
    requires forall k :: k in live ==> live[k].len <= m
    ensures |s| <= Times(|live|, m) && forall x :: Taken(live, x) ==> x in s
    decreases |live|
  {
    hide Times;
    s := {};
    if live != map[] {
      var k :| k in live;
      var rest := live - {k};
      assert |rest| == |live| - 1;
      var t := BlocksCover(rest, m);
      s := Span(live[k].addr, live[k].len) + t;
      TimesSucc(|live| - 1, m);
      forall x | Taken(live, x) ensures x in s {
        var j :| j in live && live[j].Has(x);
        assert j != k ==> j in rest && rest[j].Has(x);
      }
    }
  }

  /** However fragmented, a region larger than what the live blocks and holes too small for
      the request can take up has a hole the request fits into. */
  lemma {:induction false} RoomForBlock<K>(lo: nat, hi: nat, hs: seq<Hole>, live: map<K, Block>, m: nat, size: nat)
    requires Partition(lo, hi, hs, live) && 0 < size && size % PAGE == 0
    requires forall k :: k in live ==> live[k].len <= m
    requires hi - lo > Times(|live|, m) + Times(|live| + 1, size - 1)
    ensures FitIndex(hs, size, PAGE) < |hs|
  {
    hide Times;
    if FitIndex(hs, size, PAGE) == |hs| {
      SmallHoles(hs, size);
      var s := HolesCover(hs, size - 1);
      var t := BlocksCover(live, m);
      SubsetSize(Span(lo, hi - lo), s + t);
      HolesBounded(lo, hi, hs, live);
      TimesMono(|hs|, |live| + 1, size - 1, size - 1);
    }
  }

  lemma SmallHoles(hs: seq<Hole>, size: nat)
    requires PageHoles(hs) && 0 < size && FitIndex(hs, size, PAGE) == |hs|
    ensures forall i :: 0 <= i < |hs| ==> hs[i].len <= size - 1
  {
    forall i | 0 <= i < |hs| ensures hs[i].len <= size - 1 {
      PagePad(hs[i].base);
      assert !HoleList.Fits(hs[i], size, PAGE);
    }
  }

  /** A request's buffer is allocated at its rounded-up size but freed at its raw size, so
      one such round trip restores the holes exactly when the size is whole pages. */
  lemma {:induction false} RawFreeRestores(hs: seq<Hole>, size: nat)
    requires Canonical(hs) && PageHoles(hs) && 0 < size
    requires FitIndex(hs, PageUp(size), PAGE) < |hs|
    ensures var i := FitIndex(hs, PageUp(size), PAGE);
      Release(Carve(hs, i, PageUp(size), PAGE), AllocAddr(hs[i], PAGE), size) == hs <==> size % PAGE == 0
  {
    var i := FitIndex(hs, PageUp(size), PAGE);
    PagePad(hs[i].base);
    var a, c := AllocAddr(hs[i], PAGE), Carve(hs, i, PageUp(size), PAGE);
    if size % PAGE == 0 {
      FreeUndoesAllocate(hs, i, size, PAGE);
    } else {
      CarveExact(hs, i, PageUp(size), PAGE);
      ReleaseExact(c, a, size);
      assert hs[i].Has(a + size);
      assert Free(hs, a + size) && !Free(Release(c, a, size), a + size);
    }
  }
}
