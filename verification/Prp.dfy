/** The Physical Region Page entries that describe a data buffer to the device: the
    driver's builder, the device's reading of them (NVM Express Base Specification 1.4,
    section 4.3), and how far the two agree. */
module Prp {
  import opened Wrappers
  import opened Memory

  /** Entries in one list page: ctrl_page_size >> 3. */
  const PER_PAGE: nat := 512

  type Words = map<nat, nat>

  // ---- the driver's side ----

  /** The loop that fills the list.  `list` is the current list page, `spare` the pages the
      allocator will hand out next, `i` the slot number, `buf` the next data page and `left`
      the bytes from there on.  None: an allocation failed.  Otherwise the memory and the
      pages not taken.  The driver runs it with `restart` false; true is the variant in
      which the slot number starts again at 1 behind the entry moved into a new page. */
  function ListLoop(restart: bool, w: Words, list: nat, spare: seq<nat>, i: nat, buf: nat, left: nat)
    : Option<(Words, seq<nat>)>
    decreases left
  {
    var hop := i == PER_PAGE;
    if hop && spare == [] then None
    else
      var last := list + (PER_PAGE - 1) * 8;
      var w1 := if hop then w[spare[0] := WordAt(w, last)][last := spare[0]] else w;
      var list1 := if hop then spare[0] else list;
      var spare1 := if hop then spare[1..] else spare;
      var i1 := if hop && restart then 1 else i;
      var w2 := w1[list1 + i1 * 8 := buf];
      if left <= PAGE then Some((w2, spare1))
      else ListLoop(restart, w2, list1, spare1, i1 + 1, buf + PAGE, left - PAGE)
  }

  /** Bytes from `buf` to the end of its page. */
  function FirstLen(buf: nat): (n: nat)
    ensures 0 < n <= PAGE
  {
    PAGE - buf % PAGE
  }

  /** The three forms of setup_buffer.  PRP2 stays zero when one entry is enough. */
  function Setup(restart: bool, w: Words, spare: seq<nat>, buf: nat, len: nat): Option<(nat, nat, Words, seq<nat>)> {
    if buf % PAGE + len <= 2 * PAGE then
      Some((buf, if len > FirstLen(buf) then buf + FirstLen(buf) else 0, w, spare))
    else if spare == [] then None
    else
      match ListLoop(restart, w, spare[0], spare[1..], 0, buf + FirstLen(buf), len - FirstLen(buf))
      case None => None
      case Some(r) => Some((buf, spare[0], r.0, r.1))
  }

  /** Data pages behind the first: the number of list entries when there is a list. */
  function Entries(left: nat): (n: nat)
    ensures left <= n * PAGE < left + PAGE
  {
    (left + PAGE - 1) / PAGE
  }

  /** List pages chained on when m more entries are written from slot i on. */
  function Hops(i: nat, m: nat): nat {
    if i + m < 2 then 0 else (i + m - 2) / (PER_PAGE - 1)
  }

  /** List pages used for m entries in all: ceil((m - 1) / (PER_PAGE - 1)) once m is at least 2. */
  function ListPages(m: nat): (n: nat)
    ensures 2 <= m ==> m - 1 <= n * (PER_PAGE - 1) < m - 1 + (PER_PAGE - 1)
  {
    1 + Hops(0, m)
  }

  // ---- the device's side ----

  datatype Segment = Segment(addr: nat, len: nat)

  /** A list entry names a whole page, except that the last slot of a list page links to the
      next one when more than one page of data is still to come. */
  function DecodeList(w: Words, ptr: nat, rest: nat): Option<seq<Segment>>
    decreases rest, if ptr % PAGE == PAGE - 8 then 1 else 0
  {
    var e := WordAt(w, ptr);
    if e % PAGE != 0 then None
    else if rest <= PAGE then Some([Segment(e, rest)])
    else if ptr % PAGE == PAGE - 8 then DecodeList(w, e, rest)
    else
      match DecodeList(w, ptr + 8, rest - PAGE)
      case None => None
      case Some(segs) => Some([Segment(e, PAGE)] + segs)
  }

  function Decode(w: Words, prp1: nat, prp2: nat, len: nat): Option<seq<Segment>> {
    var first := FirstLen(prp1);
    if len <= first then Some([Segment(prp1, len)])
    else if len - first <= PAGE then
      if prp2 % PAGE != 0 then None else Some([Segment(prp1, first), Segment(prp2, len - first)])
    else
      match DecodeList(w, prp2, len - first)
      case None => None
      case Some(segs) => Some([Segment(prp1, first)] + segs)
  }

  /** The segments are non-empty, consecutive and together exactly [a, a + n). */
  ghost predicate Tiles(segs: seq<Segment>, a: nat, n: nat)
    decreases |segs|
  {
    if segs == [] then n == 0
    else segs[0].addr == a && 0 < segs[0].len <= n && Tiles(segs[1..], a + segs[0].len, n - segs[0].len)
  }

  ghost predicate DecodesTo(d: Option<seq<Segment>>, a: nat, n: nat) {
    d.Some? && Tiles(d.value, a, n)
  }

  /** The device reads back exactly the buffer the driver was given. */
  ghost predicate RoundTrips(restart: bool, w: Words, spare: seq<nat>, buf: nat, len: nat) {
    var s := Setup(restart, w, spare, buf, len);
    s.Some? && DecodesTo(Decode(s.value.2, s.value.0, s.value.1, len), buf, len)
  }

  /** Whole, different pages. */
  ghost predicate Pages(ps: seq<nat>) {
    && (forall i :: 0 <= i < |ps| ==> ps[i] % PAGE == 0)
    && (forall i, j :: 0 <= i < j < |ps| ==> ps[i] != ps[j])
  }

  lemma TilesCons(s: Segment, segs: seq<Segment>, a: nat, n: nat)
    requires s.addr == a && 0 < s.len <= n && Tiles(segs, a + s.len, n - s.len)
    ensures Tiles([s] + segs, a, n)
  {
    assert ([s] + segs)[1..] == segs;
  }

  lemma TilesOne(a: nat, n: nat)
    requires 0 < n
    ensures Tiles([Segment(a, n)], a, n)
  {
    assert Tiles([], a + n, 0);
    TilesCons(Segment(a, n), [], a, n);
    assert [Segment(a, n)] + [] == [Segment(a, n)];
  }

  // ---- round trip with the slot number restarted ----

  /** Addresses the loop leaves alone when it starts at slot i of `list`. */
  ghost predicate Untouched(list: nat, spare: seq<nat>, i: nat, a: nat) {
    && !(list + 8 * (if i < PER_PAGE then i else PER_PAGE - 1) <= a < list + PAGE)
    && (forall k :: 0 <= k < |spare| ==> !(spare[k] <= a < spare[k] + PAGE))
  }

  /** What the device will read from slot i on; from a full page, through the link. */
  ghost predicate Reads(w: Words, w': Words, list: nat, spare: seq<nat>, i: nat, buf: nat, left: nat) {
    if i < PER_PAGE then
      DecodesTo(DecodeList(w', list + 8 * i, left), buf, left)
    else
      var last := list + 8 * (PER_PAGE - 1);
      && spare != []
      && WordAt(w', last) == spare[0]
      && WordAt(w', spare[0]) == WordAt(w, last)
      && DecodesTo(DecodeList(w', spare[0] + 8, left), buf, left)
  }

  lemma PagesTail(list: nat, spare: seq<nat>)
    requires Pages([list] + spare) && spare != []
    ensures Pages([spare[0]] + spare[1..]) && spare[0] % PAGE == 0 && spare[0] != list
    ensures list + PAGE <= spare[0] || spare[0] + PAGE <= list
    ensures forall k :: 0 <= k < |spare| - 1 ==>
              spare[1..][k] + PAGE <= spare[0] || spare[0] + PAGE <= spare[1..][k]
    ensures forall k :: 0 <= k < |spare| - 1 ==>
              spare[1..][k] + PAGE <= list || list + PAGE <= spare[1..][k]
  {
    var ps := [list] + spare;
    assert ps[0] == list && ps[1] == spare[0];
    assert [spare[0]] + spare[1..] == spare;
    assert forall k :: 0 <= k < |spare| ==> spare[k] == ps[k + 1];
    forall k | 0 <= k < |spare| - 1
      ensures spare[1..][k] + PAGE <= spare[0] || spare[0] + PAGE <= spare[1..][k]
      ensures spare[1..][k] + PAGE <= list || list + PAGE <= spare[1..][k]
    {
      assert spare[1..][k] == ps[k + 2];
    }
  }

  lemma PagesAligned(list: nat, spare: seq<nat>)
    requires Pages([list] + spare)
    ensures list % PAGE == 0 && forall k :: 0 <= k < |spare| ==> spare[k] % PAGE == 0
  {
    var ps := [list] + spare;
    assert ps[0] == list && forall k :: 0 <= k < |spare| ==> ps[k + 1] == spare[k];
  }

  lemma EntryStep(w: Words, ptr: nat, buf: nat, left: nat)
    requires WordAt(w, ptr) == buf && buf % PAGE == 0 && PAGE < left && ptr % PAGE != PAGE - 8
    requires DecodesTo(DecodeList(w, ptr + 8, left - PAGE), buf + PAGE, left - PAGE)
    ensures DecodesTo(DecodeList(w, ptr, left), buf, left)
  {
    TilesCons(Segment(buf, PAGE), DecodeList(w, ptr + 8, left - PAGE).value, buf, left);
  }

  lemma EntryLast(w: Words, ptr: nat, buf: nat, left: nat)
    requires WordAt(w, ptr) == buf && buf % PAGE == 0 && 0 < left <= PAGE
    ensures DecodesTo(DecodeList(w, ptr, left), buf, left)
  {
    TilesOne(buf, left);
  }

  /** Writing the last entry into a page with room. */
  lemma LastInPage(restart: bool, w: Words, list: nat, spare: seq<nat>, i: nat, buf: nat, left: nat)
    requires buf % PAGE == 0 && 0 < left <= PAGE && i < PER_PAGE
    ensures ListLoop(restart, w, list, spare, i, buf, left) == Some((w[list + i * 8 := buf], spare))
    ensures Frame(w, w[list + i * 8 := buf], list, spare, i)
    ensures Reads(w, w[list + i * 8 := buf], list, spare, i, buf, left)
    ensures Hops(i, Entries(left)) == 0
  {
    EntryLast(w[list + i * 8 := buf], list + 8 * i, buf, left);
  }

  /** One write of an entry into a page with room. */
  lemma {:induction false} ChainInPage(w: Words, list: nat, spare: seq<nat>, i: nat, buf: nat, left: nat)
    requires Pages([list] + spare) && buf % PAGE == 0 && 0 < left && i < PER_PAGE
    requires Hops(i, Entries(left)) <= |spare|
    ensures var r := ListLoop(true, w, list, spare, i, buf, left);
      && r.Some? && r.value.1 == spare[Hops(i, Entries(left))..]
      && Frame(w, r.value.0, list, spare, i)
      && Reads(w, r.value.0, list, spare, i, buf, left)
    decreases left
  {
    hide ListLoop, Frame, Reads, Pages;
    var w2 := w[list + i * 8 := buf];
    PagesAligned(list, spare);
    if left <= PAGE {
      LastInPage(true, w, list, spare, i, buf, left);
      assert spare[0..] == spare;
    } else {
      InPageStep(true, w, list, spare, i, buf, left);
      EntriesNext(left);
      if i + 1 < PER_PAGE {
        ChainInPage(w2, list, spare, i + 1, buf + PAGE, left - PAGE);
        PageApart(list, spare, i);
        FrameAt(w2, ListLoop(true, w2, list, spare, i + 1, buf + PAGE, left - PAGE).value.0, list, spare, i + 1, list + 8 * i);
      } else {
        ChainHop(w2, list, spare, buf + PAGE, left - PAGE);
      }
      var w' := ListLoop(true, w2, list, spare, i + 1, buf + PAGE, left - PAGE).value.0;
      ReadsBack(w, w2, w', list, spare, i, buf, left);
      FrameBack(w, w', list, spare, i, buf);
    }
  }

  lemma FrameAt(w: Words, w': Words, list: nat, spare: seq<nat>, i: nat, a: nat)
    requires Frame(w, w', list, spare, i) && Untouched(list, spare, i, a)
    ensures WordAt(w', a) == WordAt(w, a)
  {
  }

  /** The loop changes nothing outside the rest of its page and the spare pages. */
  ghost predicate Frame(w: Words, w': Words, list: nat, spare: seq<nat>, i: nat) {
    forall a :: Untouched(list, spare, i, a) ==> WordAt(w', a) == WordAt(w, a)
  }

  lemma FrameBack(w: Words, w': Words, list: nat, spare: seq<nat>, i: nat, buf: nat)
    requires i < PER_PAGE && Frame(w[list + i * 8 := buf], w', list, spare, i + 1)
    ensures Frame(w, w', list, spare, i)
  {
    forall a | Untouched(list, spare, i, a) ensures WordAt(w', a) == WordAt(w, a) {
      UntouchedNext(list, spare, i, a);
    }
  }

  lemma InPageStep(restart: bool, w: Words, list: nat, spare: seq<nat>, i: nat, buf: nat, left: nat)
    requires i != PER_PAGE && PAGE < left
    ensures ListLoop(restart, w, list, spare, i, buf, left)
            == ListLoop(restart, w[list + i * 8 := buf], list, spare, i + 1, buf + PAGE, left - PAGE)
  {
  }

  lemma EntriesNext(left: nat)
    requires PAGE < left
    ensures Entries(left - PAGE) == Entries(left) - 1
  {
  }

  lemma UntouchedNext(list: nat, spare: seq<nat>, i: nat, a: nat)
    requires i < PER_PAGE && Untouched(list, spare, i, a)
    ensures Untouched(list, spare, i + 1, a) && a != list + 8 * i
  {
  }

  /** Reading from slot i, given what is read from slot i + 1 on. */
  lemma ReadsBack(before: Words, w: Words, w': Words, list: nat, spare: seq<nat>, i: nat, buf: nat, left: nat)
    requires i < PER_PAGE && list % PAGE == 0 && buf % PAGE == 0 && PAGE < left
    requires forall k :: 0 <= k < |spare| ==> spare[k] % PAGE == 0
    requires WordAt(w, list + 8 * i) == buf
    requires i + 1 < PER_PAGE ==> WordAt(w', list + 8 * i) == buf
    requires Reads(w, w', list, spare, i + 1, buf + PAGE, left - PAGE)
    ensures Reads(before, w', list, spare, i, buf, left)
  {
    if i + 1 < PER_PAGE {
      EntryStep(w', list + 8 * i, buf, left);
    } else {
      EntryStep(w', spare[0], buf, left);
      assert DecodeList(w', list + 8 * i, left) == DecodeList(w', spare[0], left);
    }
  }

  lemma PageApart(list: nat, spare: seq<nat>, i: nat)
    requires Pages([list] + spare) && i + 1 < PER_PAGE
    ensures Untouched(list, spare, i + 1, list + 8 * i)
  {
    var ps := [list] + spare;
    assert ps[0] == list;
    forall k | 0 <= k < |spare| ensures !(spare[k] <= list + 8 * i < spare[k] + PAGE) {
      assert ps[k + 1] == spare[k];
    }
  }

  lemma HopStep(w: Words, list: nat, spare: seq<nat>, buf: nat, left: nat)
    requires spare != []
    ensures var p, last := spare[0], list + (PER_PAGE - 1) * 8;
      var w2 := w[p := WordAt(w, last)][last := p][p + 8 := buf];
      ListLoop(true, w, list, spare, PER_PAGE, buf, left)
      == if left <= PAGE then Some((w2, spare[1..])) else ListLoop(true, w2, p, spare[1..], 2, buf + PAGE, left - PAGE)
  {
  }

  /** One hop: the last entry moves to slot 0 of a fresh page, its old slot becomes the link. */
  lemma {:induction false} ChainHop(w: Words, list: nat, spare: seq<nat>, buf: nat, left: nat)
    requires Pages([list] + spare) && buf % PAGE == 0 && 0 < left
    requires Hops(PER_PAGE, Entries(left)) <= |spare|
    ensures spare != []
    ensures var r := ListLoop(true, w, list, spare, PER_PAGE, buf, left);
      && r.Some? && r.value.1 == spare[Hops(PER_PAGE, Entries(left))..]
      && Frame(w, r.value.0, list, spare, PER_PAGE)
      && Reads(w, r.value.0, list, spare, PER_PAGE, buf, left)
    decreases left
  {
    hide ListLoop, Pages, Tiles;
    PagesTail(list, spare);
    HopStep(w, list, spare, buf, left);
    var p, last := spare[0], list + (PER_PAGE - 1) * 8;
    var w2 := w[p := WordAt(w, last)][last := p][p + 8 := buf];
    if left <= PAGE {
      hide DecodeList;
      EntryLast(w2, p + 8, buf, left);
    } else {
      hide DecodeList;
      var r := ListLoop(true, w2, p, spare[1..], 2, buf + PAGE, left - PAGE);
      EntriesNext(left);
      ChainInPage(w2, p, spare[1..], 2, buf + PAGE, left - PAGE);
      assert Untouched(p, spare[1..], 2, p) && Untouched(p, spare[1..], 2, p + 8) && Untouched(p, spare[1..], 2, last);
      EntryStep(r.value.0, p + 8, buf, left);
      HopFrame(w, r.value.0, list, spare, buf);
    }
  }

  lemma HopFrame(w: Words, w': Words, list: nat, spare: seq<nat>, buf: nat)
    requires spare != []
    requires var last := list + (PER_PAGE - 1) * 8;
      Frame(w[spare[0] := WordAt(w, last)][last := spare[0]][spare[0] + 8 := buf], w', spare[0], spare[1..], 2)
    ensures Frame(w, w', list, spare, PER_PAGE)
  {
    forall a | Untouched(list, spare, PER_PAGE, a) ensures WordAt(w', a) == WordAt(w, a) {
      UntouchedTail(list, spare, a);
    }
  }

  lemma UntouchedTail(list: nat, spare: seq<nat>, a: nat)
    requires spare != [] && Untouched(list, spare, PER_PAGE, a)
    ensures Untouched(spare[0], spare[1..], 2, a)
    ensures a != spare[0] && a != spare[0] + 8 && a != list + (PER_PAGE - 1) * 8
  {
    forall k | 0 <= k < |spare| - 1 ensures !(spare[1..][k] <= a < spare[1..][k] + PAGE) {
      assert spare[1..][k] == spare[k + 1];
    }
  }

  /** With the slot number restarted the round trip holds for every buffer, in exactly
      ListPages(entries) list pages. */
  lemma {:induction false} RestartedRoundTrip(w: Words, spare: seq<nat>, buf: nat, len: nat)
    requires 0 < len && Pages(spare)
    requires buf % PAGE + len > 2 * PAGE ==> ListPages(Entries(len - FirstLen(buf))) <= |spare|
    ensures RoundTrips(true, w, spare, buf, len)
    ensures buf % PAGE + len > 2 * PAGE ==>
      Setup(true, w, spare, buf, len).value.3 == spare[ListPages(Entries(len - FirstLen(buf)))..]
  {
    var first := FirstLen(buf);
    if buf % PAGE + len <= 2 * PAGE {
      ShortRoundTrip(true, w, spare, buf, len);
    } else {
      assert [spare[0]] + spare[1..] == spare;
      NextPageAligned(buf);
      ChainInPage(w, spare[0], spare[1..], 0, buf + first, len - first);
      var r := ListLoop(true, w, spare[0], spare[1..], 0, buf + first, len - first);
      ListDecode(r.value.0, spare[0], buf, len);
    }
  }

  lemma NextPageAligned(buf: nat)
    ensures (buf + FirstLen(buf)) % PAGE == 0
  {
  }

  lemma ListDecode(w: Words, list: nat, buf: nat, len: nat)
    requires buf % PAGE + len > 2 * PAGE
    requires DecodesTo(DecodeList(w, list, len - FirstLen(buf)), buf + FirstLen(buf), len - FirstLen(buf))
    ensures DecodesTo(Decode(w, buf, list, len), buf, len)
  {
    var first := FirstLen(buf);
    TilesCons(Segment(buf, first), DecodeList(w, list, len - first).value, buf, len);
  }

  lemma ShortRoundTrip(restart: bool, w: Words, spare: seq<nat>, buf: nat, len: nat)
    requires 0 < len && buf % PAGE + len <= 2 * PAGE
    ensures RoundTrips(restart, w, spare, buf, len)
  {
    var first := FirstLen(buf);
    if len <= first {
      TilesOne(buf, len);
    } else {
      NextPageAligned(buf);
      TilesOne(buf + first, len - first);
      TilesCons(Segment(buf, first), [Segment(buf + first, len - first)], buf, len);
    }
  }

  // ---- the driver's own loop, whose slot number is not restarted ----

  /** While the entries fit into one list page there is no hop, and no difference. */
  lemma {:induction false} SameInOnePage(w: Words, list: nat, spare: seq<nat>, i: nat, buf: nat, left: nat)
    requires 0 < left && i + Entries(left) <= PER_PAGE
    ensures ListLoop(false, w, list, spare, i, buf, left) == ListLoop(true, w, list, spare, i, buf, left)
    decreases left
  {
    if PAGE < left {
      EntriesNext(left);
      InPageStep(false, w, list, spare, i, buf, left);
      InPageStep(true, w, list, spare, i, buf, left);
      SameInOnePage(w[list + i * 8 := buf], list, spare, i + 1, buf + PAGE, left - PAGE);
    }
  }

  /** Past the hop the entries go to consecutive slots beyond the end of the page. */
  lemma {:induction false} PastHop(w: Words, p: nat, spare: seq<nat>, i: nat, buf: nat, left: nat)
    requires 0 < left && PER_PAGE < i
    ensures var r := ListLoop(false, w, p, spare, i, buf, left);
      && r.Some? && r.value.1 == spare
      && (forall a: nat :: a < p + 8 * i || p + 8 * (i + Entries(left)) <= a ==> WordAt(r.value.0, a) == WordAt(w, a))
      && (forall j :: 0 <= j < Entries(left) ==> WordAt(r.value.0, p + 8 * (i + j)) == buf + j * PAGE)
    decreases left
  {
    var w2 := w[p + i * 8 := buf];
    if PAGE < left {
      EntriesNext(left);
      InPageStep(false, w, p, spare, i, buf, left);
      PastHop(w2, p, spare, i + 1, buf + PAGE, left - PAGE);
      var w' := ListLoop(false, w2, p, spare, i + 1, buf + PAGE, left - PAGE).value.0;
      forall j | 0 <= j < Entries(left) ensures WordAt(w', p + 8 * (i + j)) == buf + j * PAGE {
        if 0 < j {
          assert WordAt(w', p + 8 * ((i + 1) + (j - 1))) == (buf + PAGE) + (j - 1) * PAGE;
        }
      }
    }
  }

  /** The stray entries run over the first list page. */
  predicate Overrun(list: nat, p: nat, slots: nat) {
    p + PAGE <= list < p + 8 * slots
  }

  /** Too many entries: slot 1 of the second page is never written, whatever it holds; and
      the first page ends in the link to the second, unless the stray entries, which start
      right behind the second page, overwrite it from its first slot on. */
  ghost predicate Broken(w: Words, w': Words, list: nat, p: nat, i: nat, buf: nat, m: nat) {
    && WordAt(w', p + 8) == WordAt(w, p + 8)
    && (!Overrun(list, p, i + m) ==> WordAt(w', list + (PER_PAGE - 1) * 8) == p)
    && (Overrun(list, p, i + m) ==> WordAt(w', list) == buf + ((list - p) / 8 - i) * PAGE)
  }

  lemma HopStepPlain(w: Words, list: nat, spare: seq<nat>, buf: nat, left: nat)
    requires spare != []
    ensures var p, last := spare[0], list + (PER_PAGE - 1) * 8;
      var w2 := w[p := WordAt(w, last)][last := p][p + PER_PAGE * 8 := buf];
      ListLoop(false, w, list, spare, PER_PAGE, buf, left)
      == if left <= PAGE then Some((w2, spare[1..]))
         else ListLoop(false, w2, p, spare[1..], PER_PAGE + 1, buf + PAGE, left - PAGE)
  {
  }

  lemma BrokenAtHop(w: Words, list: nat, spare: seq<nat>, buf: nat, left: nat)
    requires Pages([list] + spare) && spare != [] && 0 < left
    ensures var r := ListLoop(false, w, list, spare, PER_PAGE, buf, left);
      r.Some? && Broken(w, r.value.0, list, spare[0], PER_PAGE, buf, Entries(left))
  {
    hide Pages, ListLoop;
    HopStepPlain(w, list, spare, buf, left);
    PagesTail(list, spare);
    PagesAligned(list, spare);
    var p, last := spare[0], list + (PER_PAGE - 1) * 8;
    var w2 := w[p := WordAt(w, last)][last := p][p + PER_PAGE * 8 := buf];
    if left <= PAGE {
      assert Entries(left) == 1;
    } else {
      EntriesNext(left);
      PastHop(w2, p, spare[1..], PER_PAGE + 1, buf + PAGE, left - PAGE);
      var w' := ListLoop(false, w2, p, spare[1..], PER_PAGE + 1, buf + PAGE, left - PAGE).value.0;
      var slots := PER_PAGE + Entries(left);
      PastFirstPage(list, p, slots);
      if Overrun(list, p, slots) && list != p + PAGE {
        var j := (list - p) / 8 - (PER_PAGE + 1);
        assert WordAt(w', p + 8 * ((PER_PAGE + 1) + j)) == (buf + PAGE) + j * PAGE;
      }
    }
  }

  lemma PageNumbers(a: nat) returns (n: int)
    requires a % PAGE == 0
    ensures a == 4096 * n
  {
    n := a / PAGE;
  }

  lemma EightDivides(n: int)
    ensures (8 * n) % 8 == 0
  {
  }

  lemma PastFirstPage(list: nat, p: nat, slots: nat)
    requires list % PAGE == 0 && p % PAGE == 0 && list != p && PER_PAGE < slots
    ensures (list - p) % 8 == 0
    ensures !Overrun(list, p, slots) ==>
              list + (PER_PAGE - 1) * 8 < p + 8 * PER_PAGE || p + 8 * slots <= list + (PER_PAGE - 1) * 8
  {
    var m := PageNumbers(list);
    var n := PageNumbers(p);
    EightDivides(512 * (m - n));
    assert list - p == 8 * (512 * (m - n));
    assert m < n ==> list + 4096 <= p;
    assert n < m ==> p + 4096 <= list;
  }

  lemma {:induction false} BrokenFrom(w: Words, list: nat, spare: seq<nat>, i: nat, buf: nat, left: nat)
    requires Pages([list] + spare) && spare != [] && 0 < left && i <= PER_PAGE < i + Entries(left)
    ensures var r := ListLoop(false, w, list, spare, i, buf, left);
      r.Some? && Broken(w, r.value.0, list, spare[0], i, buf, Entries(left))
    decreases left
  {
    if i == PER_PAGE {
      BrokenAtHop(w, list, spare, buf, left);
    } else {
      EntriesNext(left);
      InPageStep(false, w, list, spare, i, buf, left);
      BrokenFrom(w[list + i * 8 := buf], list, spare, i + 1, buf + PAGE, left - PAGE);
      PagesTail(list, spare);
    }
  }

  /** The device, at slot j of the first page, still has the right data in front of it. */
  ghost predicate OnTrack(w: Words, list: nat, j: nat, buf: nat, left: nat) {
    j * PAGE < left && DecodesTo(DecodeList(w, list + 8 * j, left - j * PAGE), buf + j * PAGE, left - j * PAGE)
  }

  lemma TrackStep(w: Words, list: nat, j: nat, buf: nat, left: nat)
    requires list % PAGE == 0 && j + 1 < PER_PAGE && OnTrack(w, list, j, buf, left) && (j + 1) * PAGE < left
    ensures OnTrack(w, list, j + 1, buf, left)
  {
    OneEntry(w, list + 8 * j, buf + j * PAGE, left - j * PAGE);
  }

  lemma {:induction false} Chase(w: Words, list: nat, j: nat, buf: nat, left: nat)
    requires list % PAGE == 0 && j < PER_PAGE && j * PAGE < left && OnTrack(w, list, 0, buf, left)
    ensures OnTrack(w, list, j, buf, left)
  {
    if j > 0 {
      Chase(w, list, j - 1, buf, left);
      TrackStep(w, list, j - 1, buf, left);
    }
  }

  lemma OneEntry(w: Words, ptr: nat, buf: nat, left: nat)
    requires ptr % PAGE != PAGE - 8 && 0 < left
    ensures DecodesTo(DecodeList(w, ptr, left), buf, left) ==>
      && WordAt(w, ptr) == buf
      && (PAGE < left ==> DecodesTo(DecodeList(w, ptr + 8, left - PAGE), buf + PAGE, left - PAGE))
  {
    if PAGE < left && DecodesTo(DecodeList(w, ptr, left), buf, left) {
      var segs := DecodeList(w, ptr + 8, left - PAGE).value;
      assert ([Segment(WordAt(w, ptr), PAGE)] + segs)[1..] == segs;
    }
  }

  lemma {:induction false} BrokenNotRead(w: Words, w': Words, list: nat, p: nat, buf: nat, left: nat)
    requires list % PAGE == 0 && p % PAGE == 0 && 0 < buf && PER_PAGE < Entries(left)
    requires Broken(w, w', list, p, 0, buf, Entries(left)) && WordAt(w, p + 8) == 0
    ensures !DecodesTo(DecodeList(w', list, left), buf, left)
  {
    OneEntry(w', list, buf, left);
    assert Overrun(list, p, Entries(left)) ==> (list - p) / 8 >= PER_PAGE;
    LinkNotRead(w', list, p, buf + (PER_PAGE - 1) * PAGE, left - (PER_PAGE - 1) * PAGE);
    if OnTrack(w', list, 0, buf, left) {
      Chase(w', list, PER_PAGE - 1, buf, left);
    }
  }

  lemma LinkNotRead(w: Words, list: nat, p: nat, buf: nat, left: nat)
    requires list % PAGE == 0 && p % PAGE == 0 && 0 < buf && PAGE < left
    ensures WordAt(w, list + 8 * (PER_PAGE - 1)) == p && WordAt(w, p + 8) == 0 ==>
            !DecodesTo(DecodeList(w, list + 8 * (PER_PAGE - 1), left), buf, left)
  {
    OneEntry(w, p, buf, left);
    OneEntry(w, p + 8, buf + PAGE, left - PAGE);
  }

  /** The driver's builder describes the buffer correctly, whatever the memory held before,
      exactly when the list needs no second page. */
  lemma {:induction false} RoundTripExactly(spare: seq<nat>, buf: nat, len: nat)
    requires 0 < len && Pages(spare) && 2 <= |spare|
    ensures (forall w: Words :: RoundTrips(false, w, spare, buf, len)) <==>
            buf % PAGE + len <= 2 * PAGE || Entries(len - FirstLen(buf)) <= PER_PAGE
  {
    if buf % PAGE + len <= 2 * PAGE || Entries(len - FirstLen(buf)) <= PER_PAGE {
      forall w: Words ensures RoundTrips(false, w, spare, buf, len) {
        OnePageRoundTrip(w, spare, buf, len);
      }
    } else {
      TooLongFails(spare, buf, len);
    }
  }

  lemma {:induction false} OnePageRoundTrip(w: Words, spare: seq<nat>, buf: nat, len: nat)
    requires 0 < len && Pages(spare)
    requires buf % PAGE + len <= 2 * PAGE || (1 <= |spare| && Entries(len - FirstLen(buf)) <= PER_PAGE)
    ensures RoundTrips(false, w, spare, buf, len)
    ensures var s := Setup(false, w, spare, buf, len).value;
      if buf % PAGE + len > 2 * PAGE then s.3 == spare[1..]
      else s.2 == w && s.3 == spare && (len <= FirstLen(buf) ==> s.1 == 0)
  {
    if buf % PAGE + len > 2 * PAGE {
      SameInOnePage(w, spare[0], spare[1..], 0, buf + FirstLen(buf), len - FirstLen(buf));
      OneListPage(Entries(len - FirstLen(buf)));
      RestartedRoundTrip(w, spare, buf, len);
    } else {
      ShortRoundTrip(false, w, spare, buf, len);
    }
  }

  lemma OneListPage(m: nat)
    requires m <= PER_PAGE
    ensures ListPages(m) == 1
  {
  }

  lemma {:induction false} TooLongFails(spare: seq<nat>, buf: nat, len: nat)
    requires Pages(spare) && 2 <= |spare|
    requires buf % PAGE + len > 2 * PAGE && Entries(len - FirstLen(buf)) > PER_PAGE
    ensures !RoundTrips(false, map[], spare, buf, len)
  {
    var first, list := FirstLen(buf), spare[0];
    assert [spare[0]] + spare[1..] == spare;
    BrokenFrom(map[], list, spare[1..], 0, buf + first, len - first);
    var w' := ListLoop(false, map[], list, spare[1..], 0, buf + first, len - first).value.0;
    PagesTail(list, spare[1..]);
    BrokenNotRead(map[], w', list, spare[1], buf + first, len - first);
    var d := DecodeList(w', list, len - first);
    if d.Some? {
      assert ([Segment(buf, first)] + d.value)[1..] == d.value;
    }
  }

  // ---- what building and reading leave alone ----

  /** Building a one-page list writes only inside its page. */
  lemma {:induction false} OnePageFrame(w: Words, p: nat, buf: nat, len: nat)
    requires p % PAGE == 0 && buf % PAGE + len > 2 * PAGE && Entries(len - FirstLen(buf)) <= PER_PAGE
    ensures Setup(false, w, [p], buf, len).Some?
    ensures forall a: nat :: !(p <= a < p + PAGE) ==> WordAt(Setup(false, w, [p], buf, len).value.2, a) == WordAt(w, a)
  {
    var first := FirstLen(buf);
    assert [p][1..] == [] && [p] + [] == [p];
    SameInOnePage(w, p, [], 0, buf + first, len - first);
    OneListPage(Entries(len - first));
    NextPageAligned(buf);
    ChainInPage(w, p, [], 0, buf + first, len - first);
    var w' := ListLoop(true, w, p, [], 0, buf + first, len - first).value.0;
    forall a: nat | !(p <= a < p + PAGE) ensures WordAt(w', a) == WordAt(w, a) {
      assert Untouched(p, [], 0, a);
    }
  }

  ghost predicate SameFrom(w: Words, w': Words, ptr: nat) {
    forall a: nat :: ptr <= a < ptr + PAGE - ptr % PAGE ==> WordAt(w, a) == WordAt(w', a)
  }

  lemma {:induction false} ListFrame(w: Words, w': Words, ptr: nat, rest: nat)
    requires ptr % 8 == 0 && 0 < rest && Entries(rest) * 8 <= PAGE - ptr % PAGE && SameFrom(w, w', ptr)
    ensures DecodeList(w', ptr, rest) == DecodeList(w, ptr, rest)
    decreases rest
  {
    if PAGE < rest {
      EntriesNext(rest);
      assert (ptr + 8) % PAGE == ptr % PAGE + 8;
      ListFrame(w, w', ptr + 8, rest - PAGE);
    }
  }

  lemma ListNeeded(buf: nat, len: nat)
    ensures len > FirstLen(buf) + PAGE <==> buf % PAGE + len > 2 * PAGE
  {
  }

  /** The device's reading depends only on the list page. */
  lemma DecodeFrame(w: Words, w': Words, buf: nat, p: nat, len: nat)
    requires buf % PAGE + len > 2 * PAGE ==>
      p % PAGE == 0 && Entries(len - FirstLen(buf)) <= PER_PAGE && SameFrom(w, w', p)
    ensures Decode(w', buf, p, len) == Decode(w, buf, p, len)
  {
    hide DecodeList, Decode, Entries, FirstLen;
    if buf % PAGE + len > 2 * PAGE {
      ListNeeded(buf, len);
      var n := PageNumbers(p);
      EightDivides(512 * n);
      assert p == 8 * (512 * n);
      ListFrame(w, w', p, len - FirstLen(buf));
    }
    DecodeByList(w, w', buf, p, len);
  }

  lemma DecodeByList(w: Words, w': Words, buf: nat, p: nat, len: nat)
    requires buf % PAGE + len > 2 * PAGE ==> DecodeList(w', p, len - FirstLen(buf)) == DecodeList(w, p, len - FirstLen(buf))
    ensures Decode(w', buf, p, len) == Decode(w, buf, p, len)
  {
    hide DecodeList, FirstLen;
    ListNeeded(buf, len);
  }
}
