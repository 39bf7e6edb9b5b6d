/** What the link does with each message, the reassembly of the simulation result and the
    routing of read completions, and PCIeLinkMcmq's receive thread on a real ring. */
module LinkMessages {
  import opened Arith
  import opened Wrappers
  import opened RingBuffer
  import opened Deframer

  const READ_COMP: nat := 3
  const IRQ: nat := 4
  const DEV_READY: nat := 5
  const RESULT: nat := 7

  /** A read waiting for its completion, with the bytes copied to it so far. */
  datatype ReadRequest = ReadRequest(buflen: nat, buf: seq<Byte>, completed: bool)

  /** The fields the receive thread writes; `irqs` are the vectors passed to the handler. */
  datatype Link = Link(
    waiting: map<nat, ReadRequest>, resultBuf: seq<Byte>, resultLen: nat, resultReady: bool,
    irqs: seq<nat>, ready: bool)

  /** complete_read_request: copies what fits; an unknown id is ignored. */
  function Complete(m: map<nat, ReadRequest>, id: nat, data: seq<Byte>): map<nat, ReadRequest> {
    if id !in m then m
    else m[id := m[id].(buf := data[..Fewer(|data|, m[id].buflen)], completed := true)]
  }

  /** A 32-bit id as the device echoes it. */
  function Id(b: seq<Byte>): nat
    requires 4 <= |b|
  {
    var b0: int, b1: int, b2: int, b3: int := b[0], b[1], b[2], b[3];
    b0 + 256 * b1 + 65536 * b2 + 16777216 * b3
  }

  function Append(l: Link, data: seq<Byte>): Link {
    var buf := l.resultBuf + data;
    l.(resultBuf := buf, resultReady := l.resultReady || |buf| == l.resultLen)
  }

  /** One message.  None: an assertion on its length fails. */
  function Dispatch(l: Link, msg: seq<Byte>): Option<Link>
    requires 2 <= |msg|
  {
    var kind, body := Length(msg), msg[2..];
    if kind == READ_COMP then
      if |body| < 4 then None else Some(l.(waiting := Complete(l.waiting, Id(body), body[4..])))
    else if kind == IRQ then
      if |body| != 2 then None else Some(l.(irqs := l.irqs + [Length(body)]))
    else if kind == DEV_READY then Some(l.(ready := true))
    else if kind == RESULT then
      if l.resultBuf != [] then Some(Append(l, body))
      else if |body| < 2 then None
      else Some(Append(l.(resultLen := Length(body)), body[2..]))
    else Some(l)
  }

  ghost predicate Typed(ms: seq<seq<Byte>>) {
    forall i :: 0 <= i < |ms| ==> 2 <= |ms[i]|
  }

  function Feed(l: Link, ms: seq<seq<Byte>>): Option<Link>
    requires Typed(ms)
    decreases |ms|
  {
    if ms == [] then Some(l)
    else match Dispatch(l, ms[0])
      case None => None
      case Some(l') => Feed(l', ms[1..])
  }

  lemma {:induction false} FeedAppend(l: Link, a: seq<seq<Byte>>, b: seq<seq<Byte>>)
    requires Typed(a) && Typed(b)
    ensures Feed(l, a + b) == match Feed(l, a) case None => None case Some(l') => Feed(l', b)
    decreases |a|
  {
    if a == [] {
      assert a + b == b;
    } else {
      assert (a + b)[0] == a[0] && (a + b)[1..] == a[1..] + b;
      match Dispatch(l, a[0])
      case None =>
      case Some(l') => FeedAppend(l', a[1..], b);
    }
  }

  /** No message takes back what another did. */
  ghost predicate Further(l: Link, l': Link) {
    && l.irqs <= l'.irqs && (l.ready ==> l'.ready)
    && l.resultBuf <= l'.resultBuf && (l.resultReady ==> l'.resultReady)
    && l'.waiting.Keys == l.waiting.Keys
    && (forall id :: id in l.waiting ==>
          l'.waiting[id].buflen == l.waiting[id].buflen && (l.waiting[id].completed ==> l'.waiting[id].completed))
  }

  lemma DispatchFurther(l: Link, msg: seq<Byte>)
    requires 2 <= |msg|
    ensures Dispatch(l, msg).Some? ==> Further(l, Dispatch(l, msg).value)
  {
  }

  lemma {:induction false} NothingTakenBack(l: Link, ms: seq<seq<Byte>>)
    requires Typed(ms)
    ensures Feed(l, ms).Some? ==> Further(l, Feed(l, ms).value)
    decreases |ms|
  {
    hide Dispatch;
    if ms != [] {
      DispatchFurther(l, ms[0]);
      if Dispatch(l, ms[0]).Some? { NothingTakenBack(Dispatch(l, ms[0]).value, ms[1..]); }
    }
  }

  // ---- what fails an assertion ----

  /** A message too short for its type, or an interrupt that is not just a vector; `first`
      says that a part of a result would be its first. */
  ghost predicate Malformed(msg: seq<Byte>, first: bool)
    requires 2 <= |msg|
  {
    || (Length(msg) == READ_COMP && |msg| < 6)
    || (Length(msg) == IRQ && |msg| != 4)
    || (Length(msg) == RESULT && first && |msg| < 4)
  }

  ghost predicate RefusedAt(l: Link, ms: seq<seq<Byte>>, i: nat)
    requires Typed(ms)
  {
    i < |ms| && var before := Feed(l, ms[..i]); before.Some? && Malformed(ms[i], before.value.resultBuf == [])
  }

  /** The switch stops exactly at a malformed message, reached by handling those before it. */
  lemma {:induction false} RefusedExactly(l: Link, ms: seq<seq<Byte>>)
    requires Typed(ms)
    ensures Feed(l, ms) == None <==> exists i: nat :: RefusedAt(l, ms, i)
    decreases |ms|
  {
    hide Dispatch, Malformed;
    if ms != [] {
      DispatchRefuses(l, ms[0]);
      assert RefusedAt(l, ms, 0) <==> Dispatch(l, ms[0]) == None;
      if Dispatch(l, ms[0]).Some? {
        var l1, rest := Dispatch(l, ms[0]).value, ms[1..];
        RefusedExactly(l1, rest);
        forall i: nat ensures RefusedAt(l, ms, i + 1) <==> RefusedAt(l1, rest, i) { RefusedShift(l, ms, i); }
        assert forall i: nat :: RefusedAt(l, ms, i) ==> 0 < i && RefusedAt(l1, rest, i - 1);
      }
    }
  }

  lemma RefusedShift(l: Link, ms: seq<seq<Byte>>, i: nat)
    requires Typed(ms) && ms != [] && Dispatch(l, ms[0]).Some?
    ensures RefusedAt(l, ms, i + 1) <==> RefusedAt(Dispatch(l, ms[0]).value, ms[1..], i)
  {
    hide Dispatch, Malformed;
    if i < |ms| - 1 {
      assert ms[..i + 1][1..] == ms[1..][..i] && ms[..i + 1][0] == ms[0];
    }
  }

  lemma DispatchRefuses(l: Link, msg: seq<Byte>)
    requires 2 <= |msg|
    ensures Dispatch(l, msg) == None <==> Malformed(msg, l.resultBuf == [])
  {
  }

  // ---- read completions ----

  datatype Completion = Completion(id: nat, data: seq<Byte>)

  ghost function IdBytes(id: nat): seq<Byte>
    requires id < 0x1_0000_0000
  {
    [id % 256, id / 256 % 256, id / 256 / 256 % 256, id / 256 / 256 / 256]
  }

  lemma IdRoundTrip(id: nat, data: seq<Byte>)
    requires id < 0x1_0000_0000
    ensures Id(IdBytes(id) + data) == id && (IdBytes(id) + data)[4..] == data
  {
  }

  ghost function ReadComp(c: Completion): seq<Byte>
    requires c.id < 0x1_0000_0000
  {
    Header(READ_COMP) + (IdBytes(c.id) + c.data)
  }

  ghost predicate Wide(cs: seq<Completion>) {
    forall i :: 0 <= i < |cs| ==> cs[i].id < 0x1_0000_0000
  }

  ghost function ReadComps(cs: seq<Completion>): (ms: seq<seq<Byte>>)
    requires Wide(cs)
    ensures |ms| == |cs| && Typed(ms)
    decreases |cs|
  {
    if cs == [] then [] else [ReadComp(cs[0])] + ReadComps(cs[1..])
  }

  lemma DispatchComp(l: Link, c: Completion)
    requires c.id < 0x1_0000_0000
    ensures Dispatch(l, ReadComp(c)) == Some(l.(waiting := Complete(l.waiting, c.id, c.data)))
  {
    IdRoundTrip(c.id, c.data);
    assert ReadComp(c)[..2] == Header(READ_COMP) && ReadComp(c)[2..] == IdBytes(c.id) + c.data;
  }

  /** A read that got its data, cut to its buffer. */
  ghost predicate Filled(before: map<nat, ReadRequest>, after: map<nat, ReadRequest>, c: Completion) {
    && c.id in before && c.id in after
    && after[c.id] == ReadRequest(before[c.id].buflen, c.data[..Fewer(|c.data|, before[c.id].buflen)], true)
  }

  ghost predicate Mentions(cs: seq<Completion>, id: nat) {
    exists i :: 0 <= i < |cs| && cs[i].id == id
  }

  /** No later completion is for the same read. */
  ghost predicate Last(cs: seq<Completion>, i: nat)
    requires i < |cs|
  {
    !Mentions(cs[i + 1..], cs[i].id)
  }

  /** What completions do to the reads: each read mentioned holds the data last sent for it, cut
      to its buffer, and every other is left as it was. */
  ghost predicate Routed(before: map<nat, ReadRequest>, after: map<nat, ReadRequest>, cs: seq<Completion>) {
    && after.Keys == before.Keys
    && (forall i :: 0 <= i < |cs| && cs[i].id in before && Last(cs, i) ==> Filled(before, after, cs[i]))
    && (forall id :: id in before && !Mentions(cs, id) ==> after[id] == before[id])
  }

  /** Any completions, of outstanding and unknown reads, once or more often, in any order. */
  lemma {:induction false} CompletionsRouted(l: Link, cs: seq<Completion>)
    requires Wide(cs)
    ensures var l' := Feed(l, ReadComps(cs)); l'.Some? && Routed(l.waiting, l'.value.waiting, cs)
    decreases |cs|
  {
    hide Dispatch, Complete, Routed;
    if cs == [] {
      NoneRouted(l.waiting);
    } else {
      DispatchComp(l, cs[0]);
      var l1 := l.(waiting := Complete(l.waiting, cs[0].id, cs[0].data));
      CompletionsRouted(l1, cs[1..]);
      assert Feed(l, ReadComps(cs)) == Feed(l1, ReadComps(cs[1..]));
      RoutedStep(l.waiting, Feed(l1, ReadComps(cs[1..])).value.waiting, cs);
    }
  }

  lemma NoneRouted(m: map<nat, ReadRequest>)
    ensures Routed(m, m, [])
  {
  }

  lemma CompleteOne(m: map<nat, ReadRequest>, c: Completion)
    ensures var m' := Complete(m, c.id, c.data);
      && m'.Keys == m.Keys && (c.id in m ==> Filled(m, m', c))
      && forall id :: id in m ==> m'[id].buflen == m[id].buflen && (id != c.id ==> m'[id] == m[id])
  {
  }

  lemma RoutedStep(m: map<nat, ReadRequest>, m': map<nat, ReadRequest>, cs: seq<Completion>)
    requires cs != [] && Routed(Complete(m, cs[0].id, cs[0].data), m', cs[1..])
    ensures Routed(m, m', cs)
  {
    hide Complete;
    var m1, rest := Complete(m, cs[0].id, cs[0].data), cs[1..];
    CompleteOne(m, cs[0]);
    MentionsCons(cs);
    forall i | 0 <= i < |cs| && cs[i].id in m && Last(cs, i) ensures Filled(m, m', cs[i]) {
      if 0 < i {
        assert rest[i - 1] == cs[i] && rest[i..] == cs[i + 1..];
        assert Last(rest, i - 1);
        assert Filled(m1, m', rest[i - 1]);
      }
    }
  }

  lemma MentionsCons(cs: seq<Completion>)
    requires cs != []
    ensures forall id :: Mentions(cs, id) <==> id == cs[0].id || Mentions(cs[1..], id)
  {
    forall id ensures Mentions(cs, id) <==> id == cs[0].id || Mentions(cs[1..], id) {
      if Mentions(cs, id) {
        var i :| 0 <= i < |cs| && cs[i].id == id;
        assert 0 < i ==> cs[1..][i - 1].id == id;
      }
      if Mentions(cs[1..], id) {
        var i :| 0 <= i < |cs[1..]| && cs[1..][i].id == id;
        assert cs[i + 1].id == id;
      }
    }
  }

  // ---- the simulation result ----

  /** The fragments after the first carry no length. */
  ghost function Rest(fs: seq<seq<Byte>>): (ms: seq<seq<Byte>>)
    ensures |ms| == |fs| && Typed(ms)
    decreases |fs|
  {
    if fs == [] then [] else [Header(RESULT) + fs[0]] + Rest(fs[1..])
  }

  /** A result sent in fragments; the first message also carries the total length. */
  ghost function Result(fs: seq<seq<Byte>>): (ms: seq<seq<Byte>>)
    requires fs != [] && |Concat(fs)| < 65536
    ensures |ms| == |fs| && Typed(ms)
  {
    [Header(RESULT) + (Header(|Concat(fs)|) + fs[0])] + Rest(fs[1..])
  }

  lemma DispatchMore(l: Link, f: seq<Byte>)
    requires l.resultBuf != []
    ensures Dispatch(l, Header(RESULT) + f) == Some(Append(l, f))
  {
    assert (Header(RESULT) + f)[2..] == f;
  }

  lemma DispatchFirst(l: Link, n: nat, f: seq<Byte>)
    requires l.resultBuf == [] && n < 65536
    ensures Dispatch(l, Header(RESULT) + (Header(n) + f)) == Some(Append(l.(resultLen := n), f))
  {
    var msg := Header(RESULT) + (Header(n) + f);
    assert msg[2..] == Header(n) + f && msg[2..][2..] == f;
    assert Length(msg) == RESULT && Length(msg[2..]) == n;
  }

  lemma RestStep(l: Link, fs: seq<seq<Byte>>)
    requires l.resultBuf != [] && fs != []
    ensures Feed(l, Rest(fs)) == Feed(Append(l, fs[0]), Rest(fs[1..]))
  {
    hide Dispatch;
    DispatchMore(l, fs[0]);
  }

  /** Once the buffer is not empty the rest is appended, and the result is ready at the latest
      when all of it is there.  It is ready no sooner if no more is sent than was announced. */
  lemma {:induction false} RestAppended(l: Link, fs: seq<seq<Byte>>)
    requires l.resultBuf != []
    ensures var l' := Feed(l, Rest(fs));
      && l'.Some? && l'.value.resultBuf == l.resultBuf + Concat(fs) && l'.value.resultLen == l.resultLen
      && ((|l.resultBuf| == l.resultLen ==> l.resultReady) ==>
            (|l'.value.resultBuf| == l.resultLen ==> l'.value.resultReady))
      && (|l'.value.resultBuf| <= l.resultLen && (l.resultReady <==> |l.resultBuf| == l.resultLen) ==>
            (l'.value.resultReady <==> |l'.value.resultBuf| == l.resultLen))
    decreases |fs|
  {
    if fs != [] {
      hide Feed, Rest;
      RestStep(l, fs);
      var l1 := Append(l, fs[0]);
      RestAppended(l1, fs[1..]);
      AppendAssoc(l.resultBuf, fs);
    } else {
      assert l.resultBuf + [] == l.resultBuf;
    }
  }

  lemma AppendAssoc(buf: seq<Byte>, fs: seq<seq<Byte>>)
    requires fs != []
    ensures buf + fs[0] + Concat(fs[1..]) == buf + Concat(fs)
  {
  }

  /** The buffer never holds more than what was sent without the lengths taken off it. */
  lemma {:induction false} RestShortened(l: Link, fs: seq<seq<Byte>>)
    requires l.resultBuf == [] && fs != []
    ensures var l' := Feed(l, Rest(fs));
      l'.Some? ==> |l'.value.resultBuf| + 2 <= |Concat(fs)|
    decreases |fs|
  {
    var f := fs[0];
    assert (Header(RESULT) + f)[2..] == f;
    if 2 <= |f| {
      var l1 := Append(l.(resultLen := Length(f)), f[2..]);
      assert Dispatch(l, Header(RESULT) + f) == Some(l1);
      assert l1.resultBuf == f[2..];
      if l1.resultBuf != [] {
        RestAppended(l1, fs[1..]);
      } else if |fs| > 1 {
        RestShortened(l1, fs[1..]);
      }
    }
  }

  /** After report() has cleared the buffer, a result sent in fragments is put together and
      announced exactly when it is a single fragment or the first fragment is not empty: an
      empty first fragment makes the next one look like the first. */
  lemma {:induction false} ResultAssembledExactly(l: Link, fs: seq<seq<Byte>>)
    requires l.resultBuf == [] && !l.resultReady && fs != [] && |Concat(fs)| < 65536
    ensures var l' := Feed(l, Result(fs));
      l'.Some? && l'.value.resultBuf == Concat(fs) && l'.value.resultReady <==> |fs| == 1 || fs[0] != []
  {
    var n := |Concat(fs)|;
    DispatchFirst(l, n, fs[0]);
    var l1 := Append(l.(resultLen := n), fs[0]);
    assert Feed(l, Result(fs)) == Feed(l1, Rest(fs[1..]));
    assert l1.resultBuf == fs[0];
    if fs[0] != [] {
      RestAppended(l1, fs[1..]);
    } else if |fs| > 1 {
      RestShortened(l1, fs[1..]);
    } else {
      assert Concat(fs) == fs[0] + Concat(fs[1..]);
    }
  }

  lemma {:induction false} RestPrefix(fs: seq<seq<Byte>>, k: nat)
    requires k <= |fs|
    ensures Rest(fs)[..k] == Rest(fs[..k])
    decreases k
  {
    if 0 < k {
      RestPrefix(fs[1..], k - 1);
      assert fs[..k][1..] == fs[1..][..k - 1] && Rest(fs)[1..][..k - 1] == Rest(fs)[1..k];
      assert Rest(fs)[..k] == [Rest(fs)[0]] + Rest(fs)[1..k];
    }
  }

  lemma {:induction false} ConcatSplit(fs: seq<seq<Byte>>, k: nat)
    requires k <= |fs|
    ensures Concat(fs) == Concat(fs[..k]) + Concat(fs[k..])
    decreases k
  {
    if k == 0 {
      assert fs[0..] == fs;
    } else {
      ConcatSplit(fs[1..], k - 1);
      assert fs[..k][1..] == fs[1..][..k - 1] && fs[1..][k - 1..] == fs[k..];
    }
  }

  /** After each fragment the buffer holds what was sent so far, and the result is announced
      exactly when that is all of it. */
  lemma {:induction false} AnnouncedExactly(l: Link, fs: seq<seq<Byte>>, k: nat)
    requires l.resultBuf == [] && !l.resultReady && |Concat(fs)| < 65536
    requires 1 <= k <= |fs| && (|fs| == 1 || fs[0] != [])
    ensures var l' := Feed(l, Result(fs)[..k]);
      l'.Some? && l'.value.resultBuf == Concat(fs[..k]) && (l'.value.resultReady <==> Concat(fs[..k]) == Concat(fs))
  {
    var n, some := |Concat(fs)|, fs[..k];
    var l1 := Append(l.(resultLen := n), fs[0]);
    ConcatSplit(fs, k);
    assert some[1..] == fs[1..k] == fs[1..][..k - 1];
    assert Feed(l, Result(fs)[..k]) == Feed(l1, Rest(some[1..])) by {
      DispatchFirst(l, n, fs[0]);
      RestPrefix(fs[1..], k - 1);
      assert Result(fs)[..k][1..] == Rest(fs[1..])[..k - 1];
    }
    assert l1.resultBuf == fs[0] && Concat(some) == fs[0] + Concat(some[1..]);
    if fs[0] != [] {
      RestAppended(l1, some[1..]);
    }
    assert |Concat(some)| == n ==> Concat(some) == Concat(fs);
  }

  // ---- the receive thread ----

  lemma {:induction false} DrainGrows(s: Rx)
    ensures s.msgs <= Drain(s).msgs
    ensures Typed(Drain(s).msgs[|s.msgs|..])
    decreases if s.aborted then 0 else 1 + |s.ring|
  {
    if !s.aborted && More(s) {
      TurnShrinks(s);
      DrainGrows(Turn(s));
      var ms := Drain(s).msgs;
      var t := Turn(s).msgs;
      forall i | |s.msgs| <= i < |ms| ensures 2 <= |ms[i]| {
        if i < |t| { assert ms[i] == t[i]; } else { assert ms[i] == ms[|t|..][i - |t|]; }
      }
    }
  }

  /** The messages dispatched by one round of the loop. */
  ghost function Dispatched(s: Rx): (ms: seq<seq<Byte>>)
    ensures Typed(ms) && Drain(s).msgs == s.msgs + ms
  {
    DrainGrows(s);
    Drain(s).msgs[|s.msgs|..]
  }

  /** The loop with the switch inside it.  None: an assertion fails. */
  function Work(s: Rx, l: Link): Option<(Rx, Link)>
    decreases if s.aborted then 0 else 1 + |s.ring|
  {
    if s.aborted then None
    else if !More(s) then Some((s, l))
    else
      var t := Turn(s);
      if t.aborted || |t.ring| >= |s.ring| then None
      else if |t.msgs| == |s.msgs| then Work(t, l)
      else
        var p := t.msgs[|t.msgs| - 1];
        if |p| < 2 then None
        else
          match Dispatch(l, p)
          case None => None
          case Some(l') => Work(t, l')
  }

  /** What a turn leaves to do. */
  lemma TurnWork(s: Rx, l: Link)
    requires !s.aborted && More(s)
    ensures var t := Turn(s);
      && (t.aborted ==> Work(s, l) == None)
      && (!t.aborted && t.msgs == s.msgs ==> Work(s, l) == Work(t, l))
      && (forall p :: !t.aborted && t.msgs == s.msgs + [p] && 2 <= |p| ==>
            Work(s, l) == match Dispatch(l, p) case None => None case Some(l') => Work(t, l'))
  {
    TurnShrinks(s);
  }

  lemma DispatchedStep(s: Rx, p: seq<seq<Byte>>)
    requires !s.aborted && More(s) && Turn(s).msgs == s.msgs + p
    ensures Dispatched(s) == p + Dispatched(Turn(s))
  {
    assert s.msgs + p + Dispatched(Turn(s)) == s.msgs + (p + Dispatched(Turn(s)));
    Cancel(s.msgs, Dispatched(s), p + Dispatched(Turn(s)));
  }

  /** A turn reads a header, dispatches one message of at least two bytes, or aborts. */
  lemma TurnCases(s: Rx) returns (p: seq<seq<Byte>>)
    requires More(s) && !s.aborted
    ensures Turn(s).msgs == s.msgs + p && |p| <= 1 && Typed(p)
    ensures Turn(s).aborted ==> p == []
  {
    p := Turn(s).msgs[|s.msgs|..];
  }

  /** Interleaving the switch with the loop changes nothing: the loop cuts the same messages
      out of the ring, and the switch sees them in order. */
  lemma {:induction false} WorkIsDrainThenFeed(s: Rx, l: Link)
    requires !s.aborted
    ensures Work(s, l) == if Drain(s).aborted then None
      else match Feed(l, Dispatched(s)) case None => None case Some(l') => Some((Drain(s), l'))
    decreases 1 + |s.ring|
  {
    if !More(s) {
      assert Drain(s) == s && s.msgs + Dispatched(s) == s.msgs + [];
    } else {
      var t := Turn(s);
      TurnShrinks(s);
      TurnWork(s, l);
      var p := TurnCases(s);
      if !t.aborted {
        DispatchedStep(s, p);
        if p == [] {
          assert t.msgs == s.msgs && Dispatched(s) == Dispatched(t);
          WorkIsDrainThenFeed(t, l);
        } else {
          assert p == [p[0]] && (p + Dispatched(t))[1..] == Dispatched(t);
          match Dispatch(l, p[0])
          case None =>
          case Some(l') => WorkIsDrainThenFeed(t, l');
        }
      }
    }
  }

  /** Values of size_t. */
  const WRAP: nat := 0x1_0000_0000_0000_0000

  lemma RingSizes()
    ensures Sizes(CAP, WRAP)
  {
    IndexIsMod(WRAP, CAP);
  }

  class PCIeLinkMcmq {
    const ring: Ringbuffer<Byte>
    var readRequests: map<nat, ReadRequest>
    var readIdCounter: nat
    var resultBuf: seq<Byte>
    var resultLen: nat
    var resultReady: bool
    var irqs: seq<nat>
    var ready: bool
    ghost var messages: seq<seq<Byte>>

    ghost function View(): Link
      reads this
    {
      Link(readRequests, resultBuf, resultLen, resultReady, irqs, ready)
    }

    ghost predicate Valid()
      reads this, ring, ring.data
    {
      ring.Valid() && ring.size == CAP
    }

    ghost function State(last: Option<nat>): Rx
      reads this, ring, ring.data
      requires Valid()
    {
      Rx(last, ring.Contents(), messages, false)
    }

    /** The source leaves the id counter, result_len and result_ready uninitialised. */
    constructor (readIdCounter: nat, resultLen: nat, resultReady: bool)
      requires readIdCounter < 0x1_0000_0000
      ensures Valid() && State(None) == START && fresh(ring) && fresh(ring.data)
      ensures View() == Link(map[], [], resultLen, resultReady, [], false) && this.readIdCounter == readIdCounter
    {
      RingSizes();
      ring := new Ringbuffer(CAP, WRAP, 0);
      readRequests, this.readIdCounter := map[], readIdCounter;
      resultBuf, this.resultLen, this.resultReady := [], resultLen, resultReady;
      irqs, ready, messages := [], false, [];
    }

    /** setup_read_request: an id still outstanding would be overwritten in place. */
    method SetupReadRequest(buflen: nat) returns (id: nat)
      modifies this`readRequests, this`readIdCounter
      ensures id == old(readIdCounter) && readIdCounter == (id + 1) % 0x1_0000_0000
      ensures readRequests == old(readRequests)[id := ReadRequest(buflen, [], false)]
    {
      id := readIdCounter;
      readIdCounter := (readIdCounter + 1) % 0x1_0000_0000;
      readRequests := readRequests[id := ReadRequest(buflen, [], false)];
    }

    method CompleteReadRequest(id: nat, data: seq<Byte>)
      modifies this`readRequests
      ensures readRequests == Complete(old(readRequests), id, data)
    {
      if id !in readRequests {
        return;
      }
      var req := readRequests[id];
      var outlen := if |data| < req.buflen then |data| else req.buflen;
      readRequests := readRequests[id := req.(buf := data[..outlen], completed := true)];
    }

    /** The last part of read_from_device, once the request is completed. */
    method FinishRead(id: nat) returns (data: seq<Byte>)
      requires id in readRequests && readRequests[id].completed
      modifies this`readRequests
      ensures data == old(readRequests)[id].buf && readRequests == old(readRequests) - {id}
    {
      data := readRequests[id].buf;
      readRequests := readRequests - {id};
    }

    /** The start of report. */
    method ClearResult()
      modifies this`resultBuf, this`resultLen, this`resultReady
      ensures View() == old(View()).(resultBuf := [], resultLen := 0, resultReady := false)
    {
      resultBuf, resultLen, resultReady := [], 0, false;
    }

    /** The switch on the message type; false where an assertion fails. */
    method HandleMessage(payload: seq<Byte>) returns (ok: bool)
      requires 2 <= |payload|
      modifies this`readRequests, this`resultBuf, this`resultLen, this`resultReady, this`irqs, this`ready
      ensures ok <==> Dispatch(old(View()), payload).Some?
      ensures ok ==> View() == Dispatch(old(View()), payload).value
    {
      var kind, body := Length(payload), payload[2..];
      ok := true;
      if kind == READ_COMP {
        if |body| < 4 {
          return false;
        }
        CompleteReadRequest(Id(body), body[4..]);
      } else if kind == IRQ {
        if |body| != 2 {
          return false;
        }
        irqs := irqs + [Length(body)];
      } else if kind == DEV_READY {
        ready := true;
      } else if kind == RESULT {
        if resultBuf == [] {
          if |body| < 2 {
            return false;
          }
          resultLen := Length(body);
          body := body[2..];
        }
        resultBuf := resultBuf + body;
        if |resultBuf| == resultLen {
          resultReady := true;
        }
      }
    }

    /** One turn of the loop in recv_thread, up to the switch: reads a length, or a message. */
    method Step(last: Option<nat>) returns (last': Option<nat>, payload: Option<seq<Byte>>)
      requires Valid() && More(State(last))
      modifies ring`tail, ring`taken
      ensures Valid() && var t := Turn(old(State(last)));
        && last' == t.last && ring.Contents() == t.ring && (t.aborted ==> payload.Some?)
        && (match payload
            case None => t.msgs == messages && !t.aborted
            case Some(p) => if |p| < 2 then t.aborted && t.msgs == messages else !t.aborted && t.msgs == messages + [p])
    {
      var len: nat;
      if last == None {
        var header := ring.ReadBuff(2);
        len := Length(header);
        var available := ring.ReadAvailable();
        if available < len {
          return Some(len), None;
        }
      } else {
        len := last.value;
      }
      var p := ring.ReadBuff(len);
      return None, Some(p);
    }

    /** The loop that drains the ring, handing every message to the switch as it comes; false
        where an assertion fails. */
    method DrainLoop(last0: Option<nat>) returns (ok: bool, last: Option<nat>)
      requires Valid()
      modifies this`readRequests, this`resultBuf, this`resultLen, this`resultReady, this`irqs, this`ready, this`messages
      modifies ring`tail, ring`taken
      ensures Valid()
      ensures ok <==> Work(old(State(last0)), old(View())).Some?
      ensures ok ==> Work(old(State(last0)), old(View())) == Some((State(last), View()))
    {
      hide Turn, Dispatch, Ringbuffer.Valid;
      last := last0;
      ghost var w := Work(State(last0), View());
      while true
        invariant Valid() && Work(State(last), View()) == w
        decreases |ring.Contents()|
      {
        var available := ring.ReadAvailable();
        var more := match last case None => available > 2 case Some(n) => available >= n;
        if !more {
          return true, last;
        }
        ghost var s := State(last);
        TurnShrinks(s);
        TurnWork(s, View());
        var payload;
        last, payload := Step(last);
        if payload.Some? {
          if |payload.value| < 2 {
            return false, last;
          }
          ok := HandleMessage(payload.value);
          messages := messages + [payload.value];
          if !ok {
            return;
          }
        }
      }
    }

    /** One wake-up of the receive thread: the pending length starts out absent. */
    method WakeUp(chunk: seq<Byte>) returns (ok: bool, ghost last: Option<nat>)
      requires Valid()
      modifies this`readRequests, this`resultBuf, this`resultLen, this`resultReady, this`irqs, this`ready, this`messages
      modifies ring`head, ring`tail, ring`input, ring`taken, ring.data
      ensures Valid()
      ensures var s := Received(false, old(State(None)), chunk);
        && (ok <==> !Drain(s).aborted && Feed(old(View()), Dispatched(s)).Some?)
        && (ok ==> State(last) == Wake(false, old(State(None)), chunk) && Some(View()) == Feed(old(View()), Dispatched(s)))
    {
      hide Drain, Work, Feed, Dispatched, Ringbuffer.Contents;
      ghost var s, v := State(None), View();
      var n := ring.WriteBuff(chunk);
      assert State(None) == Received(false, s, chunk);
      WorkIsDrainThenFeed(State(None), v);
      ok, last := DrainLoop(None);
    }

    /** The receive thread over the chunks it will be given: it cuts out the messages of Run
        and passes them to the switch, in order, and stops early exactly where an assertion
        fails. */
    method RecvThread(chunks: seq<seq<Byte>>) returns (ok: bool, ghost last: Option<nat>)
      requires Valid()
      modifies this`readRequests, this`resultBuf, this`resultLen, this`resultReady, this`irqs, this`ready, this`messages
      modifies ring`head, ring`tail, ring`input, ring`taken, ring.data
      ensures Valid()
      ensures var s := old(State(None));
        && (ok <==> !Run(false, s, chunks).aborted && Feed(old(View()), CutOut(s, chunks)).Some?)
        && (ok ==> State(last) == Run(false, s, chunks) && messages == s.msgs + CutOut(s, chunks))
        && (ok ==> Feed(old(View()), CutOut(s, chunks)) == Some(View()))
    {
      hide Drain, Feed, Dispatched, Run, CutOut, Received, SoFar, Wake, Ringbuffer.Valid;
      ok, last := true, None;
      ghost var s0, v0 := State(None), View();
      ghost var done: seq<seq<Byte>> := [];
      SoFarStart(s0, v0, chunks);
      var i := 0;
      while i < |chunks|
        invariant 0 <= i <= |chunks| && Valid()
        invariant SoFar(s0, v0, chunks, i, State(last), View(), done)
      {
        SoFarStep(s0, v0, chunks, i, State(last), View(), done);
        done := done + Dispatched(Received(false, State(None), chunks[i]));
        WakeAborts(State(None), chunks[i]);
        ok, last := WakeUp(chunks[i]);
        if !ok {
          return;
        }
        i := i + 1;
      }
      SoFarEnd(s0, v0, chunks, State(last), View(), done);
    }
  }

  lemma WakeAborts(s: Rx, chunk: seq<Byte>)
    ensures Wake(false, s, chunk).aborted <==> Drain(Received(false, s, chunk)).aborted
  {
  }

  /** After i chunks, of which the messages `done` were handled. */
  ghost predicate SoFar(s0: Rx, v0: Link, chunks: seq<seq<Byte>>, i: nat, s: Rx, v: Link, done: seq<seq<Byte>>) {
    && i <= |chunks| && !s.aborted && Typed(done) && s.msgs == s0.msgs + done && Feed(v0, done) == Some(v)
    && Run(false, s, chunks[i..]) == Run(false, s0, chunks)
    && done + CutOut(s, chunks[i..]) == CutOut(s0, chunks)
  }

  lemma SoFarStart(s: Rx, v: Link, chunks: seq<seq<Byte>>)
    ensures !s.aborted ==> SoFar(s, v, chunks, 0, s, v, [])
  {
    hide Run, CutOut;
    assert [] + CutOut(s, chunks) == CutOut(s, chunks) && chunks[0..] == chunks && s.msgs + [] == s.msgs;
  }

  /** One more wake-up; an assertion failing in it fails for the whole. */
  lemma SoFarStep(s0: Rx, v0: Link, chunks: seq<seq<Byte>>, i: nat, s: Rx, v: Link, done: seq<seq<Byte>>)
    requires SoFar(s0, v0, chunks, i, s, v, done) && i < |chunks|
    ensures var t := s.(last := None);
      var more, s' := Dispatched(Received(false, t, chunks[i])), Wake(false, t, chunks[i]);
      && (!s'.aborted && Feed(v, more).Some? ==> SoFar(s0, v0, chunks, i + 1, s', Feed(v, more).value, done + more))
      && (s'.aborted ==> Run(false, s0, chunks).aborted)
      && (Feed(v, more) == None ==> Feed(v0, CutOut(s0, chunks)) == None)
  {
    hide Run, CutOut, Feed, Wake, Dispatched, Received;
    var t := s.(last := None);
    var more, s' := Dispatched(Received(false, t, chunks[i])), Wake(false, t, chunks[i]);
    var rest := CutOut(s', chunks[i + 1..]);
    assert chunks[i..][1..] == chunks[i + 1..];
    LastForgotten(s, chunks[i], chunks[i..]);
    WakeMessages(t, chunks[i]);
    FeedAppend(v0, done, more);
    FeedAppend(v0, done + more, rest);
    assert done + (more + rest) == done + more + rest;
    assert s0.msgs + done + more == s0.msgs + (done + more);
    StaysAborted(s', chunks[i + 1..]);
  }

  lemma SoFarEnd(s0: Rx, v0: Link, chunks: seq<seq<Byte>>, s: Rx, v: Link, done: seq<seq<Byte>>)
    requires SoFar(s0, v0, chunks, |chunks|, s, v, done)
    ensures s == Run(false, s0, chunks) && done == CutOut(s0, chunks) && !s.aborted
    ensures s.msgs == s0.msgs + done && Feed(v0, done) == Some(v)
  {
    assert chunks[|chunks|..] == [] && done + [] == done;
  }

  /** The messages cut out of the chunks by the source's loop. */
  ghost function CutOut(s: Rx, chunks: seq<seq<Byte>>): (ms: seq<seq<Byte>>)
    ensures Typed(ms)
    decreases |chunks|
  {
    if chunks == [] then []
    else Dispatched(Received(false, s, chunks[0])) + CutOut(Wake(false, s, chunks[0]), chunks[1..])
  }

  /** They are those Run dispatches. */
  lemma {:induction false} CutOutIsRun(s: Rx, chunks: seq<seq<Byte>>)
    ensures Run(false, s, chunks).msgs == s.msgs + CutOut(s, chunks)
    decreases |chunks|
  {
    if chunks != [] {
      CutOutIsRun(Wake(false, s, chunks[0]), chunks[1..]);
      WakeMessages(s, chunks[0]);
    }
  }

  lemma {:induction false} StaysAborted(s: Rx, chunks: seq<seq<Byte>>)
    ensures s.aborted ==> Run(false, s, chunks).aborted
    decreases |chunks|
  {
    if chunks != [] { StaysAborted(Wake(false, s, chunks[0]), chunks[1..]); }
  }

  lemma WakeMessages(s: Rx, chunk: seq<Byte>)
    ensures Wake(false, s, chunk).msgs == s.msgs + Dispatched(Received(false, s, chunk))
  {
  }

  lemma LastForgotten(s: Rx, chunk: seq<Byte>, chunks: seq<seq<Byte>>)
    requires chunks != [] && chunks[0] == chunk
    ensures Wake(false, s, chunk) == Wake(false, s.(last := None), chunk)
    ensures Run(false, s, chunks) == Run(false, Wake(false, s, chunk), chunks[1..])
    ensures CutOut(s, chunks) == Dispatched(Received(false, s, chunk)) + CutOut(Wake(false, s, chunk), chunks[1..])
    ensures Received(false, s, chunk) == Received(false, s.(last := None), chunk)
  {
    assert Received(false, s, chunk) == Received(false, s.(last := None), chunk);
  }

  /** A result that arrives in cleanly cut chunks is put together exactly when its first
      fragment is not empty, or there is no other. */
  lemma {:induction false} ReportArrives(l: Link, fs: seq<seq<Byte>>, chunks: seq<seq<Byte>>)
    requires l.resultBuf == [] && !l.resultReady && fs != [] && |Concat(fs)| < 65536
    requires GoodMsgs(Result(fs)) && Concat(chunks) == Frames(Result(fs)) && SmallChunks(chunks) && CleanCuts(Result(fs), 0, chunks)
    ensures var ms := Run(false, START, chunks).msgs;
      && Typed(ms)
      && var l' := Feed(l, ms);
        l'.Some? && l'.value.resultBuf == Concat(fs) && l'.value.resultReady <==> |fs| == 1 || fs[0] != []
  {
    SourceParsesExactly(chunks, Result(fs));
    ResultAssembledExactly(l, fs);
  }
}
