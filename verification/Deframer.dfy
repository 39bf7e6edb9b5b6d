/** The receive side of the socket link: a byte stream, arriving in chunks, is cut into
    length-prefixed messages.  With the pending length kept from one wake-up to the next the
    result does not depend on the chunks; the source forgets it, and how far that matters is
    stated exactly. */
module Deframer {
  import opened Wrappers
  import opened RingBuffer

  type Byte = x: int | 0 <= x < 256

  /** The ring's capacity, the largest chunk recv returns, and the longest message that
      leaves room for one more chunk whenever it is incomplete. */
  const CAP: nat := 16384
  const CHUNK: nat := 4096
  const LONGEST: nat := CAP - CHUNK + 1

  // ---- the drain loop ----

  /** The pending length, the ring's contents, the messages dispatched, and whether the
      assertion that a message holds at least its type failed. */
  datatype Rx = Rx(last: Option<nat>, ring: seq<Byte>, msgs: seq<seq<Byte>>, aborted: bool)

  const START := Rx(None, [], [], false)

  /** The loop condition; a header alone is not read before more bytes follow it. */
  predicate More(s: Rx) {
    match s.last case None => |s.ring| > 2 case Some(n) => |s.ring| >= n
  }

  function Take(s: Rx, len: nat): Rx
    requires len <= |s.ring|
  {
    var s' := s.(last := None, ring := s.ring[len..]);
    if len < 2 then s'.(aborted := true) else s'.(msgs := s.msgs + [s.ring[..len]])
  }

  /** ntohs of the first two bytes. */
  function Length(b: seq<Byte>): nat
    requires 2 <= |b|
  {
    var hi: int, lo: int := b[0], b[1];
    256 * hi + lo
  }

  function Turn(s: Rx): Rx
    requires More(s)
  {
    match s.last
    case Some(n) => Take(s, n)
    case None =>
      var n := Length(s.ring);
      var s' := s.(ring := s.ring[2..]);
      if |s'.ring| < n then s'.(last := Some(n)) else Take(s', n)
  }

  function Drain(s: Rx): Rx
    decreases if s.aborted then 0 else 1 + |s.ring|
  {
    if s.aborted || !More(s) then s else Drain(Turn(s))
  }

  /** A chunk arrives at a wake-up; what the ring has no room for is dropped.  `keep` false is
      the source, whose pending length is a variable of the wake-up; true keeps it. */
  function Received(keep: bool, s: Rx, chunk: seq<Byte>): Rx {
    var n: nat := if |s.ring| <= CAP then Fewer(|chunk|, CAP - |s.ring|) else 0;
    s.(last := if keep then s.last else None, ring := s.ring + chunk[..n])
  }

  function Wake(keep: bool, s: Rx, chunk: seq<Byte>): Rx {
    Drain(Received(keep, s, chunk))
  }

  function Run(keep: bool, s: Rx, chunks: seq<seq<Byte>>): Rx
    decreases |chunks|
  {
    if chunks == [] then s else Run(keep, Wake(keep, s, chunks[0]), chunks[1..])
  }

  // ---- what the sender means ----

  function Header(n: nat): seq<Byte>
    requires n < 65536
  {
    [n / 256, n % 256]
  }

  ghost predicate GoodMsgs(ms: seq<seq<Byte>>) {
    forall i :: 0 <= i < |ms| ==> 2 <= |ms[i]| <= LONGEST
  }

  ghost function Frames(ms: seq<seq<Byte>>): seq<Byte>
    requires GoodMsgs(ms)
    decreases |ms|
  {
    if ms == [] then [] else Header(|ms[0]|) + ms[0] + Frames(ms[1..])
  }

  ghost function Concat(chunks: seq<seq<Byte>>): seq<Byte>
    decreases |chunks|
  {
    if chunks == [] then [] else chunks[0] + Concat(chunks[1..])
  }

  // ---- between wake-ups ----

  /** The bytes not yet dispatched, with the header already read put back. */
  ghost function Unparsed(s: Rx): seq<Byte> {
    (match s.last case None => [] case Some(n) => if n < 65536 then Header(n) else []) + s.ring
  }

  /** The bytes received and not dispatched, followed by `rest`, are the frames of ms. */
  ghost predicate Fits(s: Rx, rest: seq<Byte>, ms: seq<seq<Byte>>) {
    && !s.aborted && GoodMsgs(ms) && Unparsed(s) + rest == Frames(ms)
    && (s.last.Some? ==> ms != [] && s.last.value == |ms[0]| && s.ring != [])
  }

  lemma FirstFrame(ms: seq<seq<Byte>>)
    requires GoodMsgs(ms) && ms != []
    ensures GoodMsgs(ms[1..]) && Frames(ms) == Header(|ms[0]|) + (ms[0] + Frames(ms[1..]))
    ensures Length(Frames(ms)) == |ms[0]|
  {
    assert Header(|ms[0]|) + ms[0] + Frames(ms[1..]) == Header(|ms[0]|) + (ms[0] + Frames(ms[1..]));
  }

  lemma Cancel<T>(h: seq<T>, a: seq<T>, b: seq<T>)
    requires h + a == h + b
    ensures a == b
  {
    assert (h + a)[|h|..] == a && (h + b)[|h|..] == b;
  }

  /** A whole message in front. */
  lemma TakeFits(s: Rx, rest: seq<Byte>, ms: seq<seq<Byte>>)
    requires !s.aborted && GoodMsgs(ms) && ms != [] && |ms[0]| <= |s.ring|
    requires s.ring + rest == ms[0] + Frames(ms[1..])
    ensures Fits(Take(s, |ms[0]|), rest, ms[1..]) && Take(s, |ms[0]|).msgs == s.msgs + ms[..1]
  {
    var len := |ms[0]|;
    assert s.ring[..len] == (s.ring + rest)[..len] == ms[0];
    assert s.ring[len..] + rest == (s.ring + rest)[len..] == Frames(ms[1..]);
    assert ms[..1] == [ms[0]];
  }

  /** One turn either reads a header or dispatches exactly the next message. */
  lemma {:induction false} TurnFits(s: Rx, rest: seq<Byte>, ms: seq<seq<Byte>>) returns (k: nat)
    requires Fits(s, rest, ms) && More(s)
    ensures k <= |ms| && Fits(Turn(s), rest, ms[k..]) && Turn(s).msgs == s.msgs + ms[..k]
  {
    hide Frames;
    assert ms != [] by { NoFrames(s, rest, ms); }
    FirstFrame(ms);
    var h, body := Header(|ms[0]|), ms[0] + Frames(ms[1..]);
    if s.last.Some? {
      assert h + s.ring + rest == h + (s.ring + rest);
      Cancel(h, s.ring + rest, body);
      TakeFits(s, rest, ms);
      k := 1;
    } else {
      assert Unparsed(s) == s.ring;
      assert Length(s.ring) == Length(Frames(ms)) by { assert s.ring[0] == (s.ring + rest)[0] && s.ring[1] == (s.ring + rest)[1]; }
      var ring := s.ring[2..];
      assert ring + rest == (s.ring + rest)[2..] == body;
      if |ring| < |ms[0]| {
        k := 0;
        assert h + ring + rest == h + body;
        assert ms[0..] == ms && s.msgs + ms[..0] == s.msgs;
      } else {
        TakeFits(s.(ring := ring), rest, ms);
        k := 1;
      }
    }
  }

  lemma NoFrames(s: Rx, rest: seq<Byte>, ms: seq<seq<Byte>>)
    requires Fits(s, rest, ms) && More(s)
    ensures ms != []
  {
  }

  /** The loop dispatches the messages that are complete and stops short of the next. */
  lemma {:induction false} DrainFits(s: Rx, rest: seq<Byte>, ms: seq<seq<Byte>>) returns (k: nat)
    requires Fits(s, rest, ms)
    ensures k <= |ms| && Fits(Drain(s), rest, ms[k..]) && Drain(s).msgs == s.msgs + ms[..k]
    ensures !More(Drain(s))
    decreases if s.aborted then 0 else 1 + |s.ring|
  {
    hide Fits, More;
    k := 0;
    assert ms[0..] == ms && s.msgs + ms[..0] == s.msgs;
    if !s.aborted && More(s) {
      var i := TurnFits(s, rest, ms);
      TurnShrinks(s);
      var j := DrainFits(Turn(s), rest, ms[i..]);
      k := i + j;
      assert ms[i..][j..] == ms[k..] && ms[..i] + ms[i..][..j] == ms[..k];
      assert Drain(s).msgs == s.msgs + ms[..i] + ms[i..][..j];
    } else {
      NotAborted(s, rest, ms);
    }
  }

  lemma TurnShrinks(s: Rx)
    requires More(s)
    ensures Turn(s).aborted || |Turn(s).ring| < |s.ring|
  {
  }

  lemma NotAborted(s: Rx, rest: seq<Byte>, ms: seq<seq<Byte>>)
    requires Fits(s, rest, ms)
    ensures !s.aborted
  {
  }

  /** A frame shorter than its message type fails the assertion once a byte follows its
      length; the messages before it were dispatched. */
  lemma {:induction false} ShortFrameAborts(s: Rx, ms: seq<seq<Byte>>, bad: seq<Byte>)
    requires !s.aborted && s.last == None && GoodMsgs(ms) && 2 < |bad| && Length(bad) < 2
    requires s.ring == Frames(ms) + bad
    ensures Drain(s).aborted && Drain(s).msgs == s.msgs + ms
    decreases |ms|
  {
    hide Drain, More, Turn, Header, Length, Frames, GoodMsgs;
    if ms == [] {
      assert Frames(ms) + bad == bad && s.msgs + ms == s.msgs by { NoFrame(ms); }
      ShortFirst(s, bad);
    } else {
      var first, rest := ms[0], ms[1..];
      FrontFrame(s.ring, ms, bad);
      TurnWhole(s, first, Frames(rest) + bad);
      DrainTurn(s);
      ShortFrameAborts(Turn(s), rest, bad);
      assert s.msgs + [first] + rest == s.msgs + ms;
    }
  }

  lemma NoFrame(ms: seq<seq<Byte>>)
    requires GoodMsgs(ms) && ms == []
    ensures Frames(ms) == []
  {
  }

  lemma ShortFirst(s: Rx, bad: seq<Byte>)
    requires !s.aborted && s.last == None && 2 < |bad| && Length(bad) < 2 && s.ring == bad
    ensures Drain(s).aborted && Drain(s).msgs == s.msgs
  {
  }

  lemma DrainTurn(s: Rx)
    requires !s.aborted && More(s)
    ensures Drain(s) == Drain(Turn(s))
  {
  }

  lemma FrontFrame(ring: seq<Byte>, ms: seq<seq<Byte>>, tail: seq<Byte>)
    requires GoodMsgs(ms) && ms != [] && ring == Frames(ms) + tail
    ensures 2 <= |ms[0]| <= LONGEST && GoodMsgs(ms[1..])
    ensures ring == Header(|ms[0]|) + (ms[0] + (Frames(ms[1..]) + tail))
  {
    FirstFrame(ms);
    assert ms[0] + Frames(ms[1..]) + tail == ms[0] + (Frames(ms[1..]) + tail);
  }

  lemma TurnWhole(s: Rx, msg: seq<Byte>, tail: seq<Byte>)
    requires !s.aborted && s.last == None && 2 <= |msg| <= LONGEST && s.ring == Header(|msg|) + (msg + tail)
    ensures More(s) && Turn(s) == Rx(None, tail, s.msgs + [msg], false)
  {
    assert s.ring[2..] == msg + tail && (msg + tail)[|msg|..] == tail && (msg + tail)[..|msg|] == msg;
  }

  // ---- any split into chunks ----

  /** Between wake-ups: everything complete was dispatched, so there is room for a chunk. */
  ghost predicate Settled(s: Rx, rest: seq<Byte>, ms: seq<seq<Byte>>) {
    Fits(s, rest, ms) && !More(s)
  }

  lemma RoomForChunk(s: Rx, rest: seq<Byte>, ms: seq<seq<Byte>>)
    requires Settled(s, rest, ms)
    ensures |s.ring| + CHUNK <= CAP
  {
  }

  lemma {:induction false} WakeFits(s: Rx, chunk: seq<Byte>, rest: seq<Byte>, ms: seq<seq<Byte>>) returns (k: nat)
    requires Settled(s, chunk + rest, ms) && |chunk| <= CHUNK
    ensures var s' := Wake(true, s, chunk);
      k <= |ms| && Settled(s', rest, ms[k..]) && s'.msgs == s.msgs + ms[..k]
  {
    RoomForChunk(s, chunk + rest, ms);
    assert chunk[..|chunk|] == chunk;
    var s1 := s.(ring := s.ring + chunk);
    assert Unparsed(s1) + rest == Unparsed(s) + (chunk + rest);
    k := DrainFits(s1, rest, ms);
  }

  ghost predicate SmallChunks(chunks: seq<seq<Byte>>) {
    forall i :: 0 <= i < |chunks| ==> |chunks[i]| <= CHUNK
  }

  lemma {:induction false} KeptRun(s: Rx, chunks: seq<seq<Byte>>, ms: seq<seq<Byte>>)
    requires Settled(s, Concat(chunks), ms) && SmallChunks(chunks)
    ensures Run(true, s, chunks) == Rx(None, [], s.msgs + ms, false)
    decreases |chunks|
  {
    if chunks == [] {
      AllParsed(s, ms);
    } else {
      var k := WakeFits(s, chunks[0], Concat(chunks[1..]), ms);
      KeptRun(Wake(true, s, chunks[0]), chunks[1..], ms[k..]);
      assert s.msgs + ms[..k] + ms[k..] == s.msgs + ms;
    }
  }

  /** At the end of the stream nothing is left over. */
  lemma AllParsed(s: Rx, ms: seq<seq<Byte>>)
    requires Settled(s, [], ms)
    ensures ms == [] && s == Rx(None, [], s.msgs, false) && s.msgs + ms == s.msgs
  {
    assert Unparsed(s) + [] == Unparsed(s);
    if ms != [] { FirstFrame(ms); }
  }

  lemma StartSettled(chunks: seq<seq<Byte>>, ms: seq<seq<Byte>>)
    requires GoodMsgs(ms) && Concat(chunks) == Frames(ms)
    ensures Settled(START, Concat(chunks), ms)
  {
    assert [] + [] + Concat(chunks) == Concat(chunks);
  }

  /** With the pending length kept, every way of cutting the stream into chunks dispatches the
      same messages and leaves nothing behind. */
  lemma {:induction false} ChunksDoNotMatter(chunks: seq<seq<Byte>>, ms: seq<seq<Byte>>)
    requires GoodMsgs(ms) && Concat(chunks) == Frames(ms) && SmallChunks(chunks)
    ensures Run(true, START, chunks) == Rx(None, [], ms, false)
  {
    StartSettled(chunks, ms);
    KeptRun(START, chunks, ms);
    assert [] + ms == ms;
  }

  // ---- the source: the pending length is lost between wake-ups ----

  /** How far position p of the stream is into a frame; 0 between frames. */
  ghost function Into(ms: seq<seq<Byte>>, p: nat): nat
    decreases |ms|
  {
    if ms == [] || p < 2 + |ms[0]| then p else Into(ms[1..], p - 2 - |ms[0]|)
  }

  /** No chunk, from position p on, ends after more than the header of an unfinished frame. */
  ghost predicate CleanCuts(ms: seq<seq<Byte>>, p: nat, chunks: seq<seq<Byte>>)
    decreases |chunks|
  {
    chunks == [] || (Into(ms, p + |chunks[0]|) <= 2 && CleanCuts(ms, p + |chunks[0]|, chunks[1..]))
  }

  lemma {:induction false} IntoDispatched(ms: seq<seq<Byte>>, k: nat, p: nat)
    requires GoodMsgs(ms) && k <= |ms|
    ensures GoodMsgs(ms[..k]) && Into(ms, |Frames(ms[..k])| + p) == Into(ms[k..], p)
    decreases k
  {
    if k == 0 {
      assert ms[0..] == ms;
    } else {
      IntoDispatched(ms[1..], k - 1, p);
      assert ms[..k][1..] == ms[1..][..k - 1] && ms[1..][k - 1..] == ms[k..];
    }
  }

  lemma {:induction false} CleanDispatched(ms: seq<seq<Byte>>, k: nat, p: nat, chunks: seq<seq<Byte>>)
    requires GoodMsgs(ms) && k <= |ms|
    ensures GoodMsgs(ms[..k])
    ensures CleanCuts(ms, |Frames(ms[..k])| + p, chunks) <==> CleanCuts(ms[k..], p, chunks)
    decreases |chunks|
  {
    if chunks != [] {
      IntoDispatched(ms, k, p + |chunks[0]|);
      CleanDispatched(ms, k, p + |chunks[0]|, chunks[1..]);
    }
  }

  /** Between wake-ups the bytes held are exactly the part of the frame received, and a length
      is pending exactly when that part goes beyond the header. */
  lemma {:induction false} HeldIsInto(s: Rx, rest: seq<Byte>, ms: seq<seq<Byte>>)
    requires Settled(s, rest, ms)
    ensures Into(ms, |Unparsed(s)|) == |Unparsed(s)|
    ensures s.last.Some? <==> |Unparsed(s)| > 2
  {
    if ms != [] { FirstFrame(ms); }
  }

  lemma FramesSplit(ms: seq<seq<Byte>>, k: nat)
    requires GoodMsgs(ms) && k <= |ms|
    ensures GoodMsgs(ms[..k]) && GoodMsgs(ms[k..]) && |Frames(ms)| == |Frames(ms[..k])| + |Frames(ms[k..])|
    decreases k
  {
    if k == 0 {
      assert ms[0..] == ms;
    } else {
      FramesSplit(ms[1..], k - 1);
      assert ms[..k][1..] == ms[1..][..k - 1] && ms[1..][k - 1..] == ms[k..];
    }
  }

  /** One clean wake-up more, in terms of the messages still to come. */
  lemma {:induction false} CleanStep(s: Rx, chunks: seq<seq<Byte>>, ms: seq<seq<Byte>>, k: nat)
    requires chunks != [] && Settled(s, Concat(chunks), ms) && k <= |ms|
    requires Settled(Wake(true, s, chunks[0]), Concat(chunks[1..]), ms[k..])
    ensures var s' := Wake(true, s, chunks[0]);
      CleanCuts(ms, |Unparsed(s)|, chunks)
      <==> s'.last == None && CleanCuts(ms[k..], |Unparsed(s')|, chunks[1..])
  {
    var s' := Wake(true, s, chunks[0]);
    var rest := Concat(chunks[1..]);
    FramesSplit(ms, k);
    assert |Unparsed(s)| + |chunks[0]| == |Frames(ms[..k])| + |Unparsed(s')| by {
      assert |Unparsed(s) + Concat(chunks)| == |Frames(ms)|;
      assert |Unparsed(s') + rest| == |Frames(ms[k..])|;
    }
    IntoDispatched(ms, k, |Unparsed(s')|);
    CleanDispatched(ms, k, |Unparsed(s')|, chunks[1..]);
    HeldIsInto(s', rest, ms[k..]);
  }

  /** Bytes the messages took up in the stream. */
  ghost function Weight(ms: seq<seq<Byte>>): nat
    decreases |ms|
  {
    if ms == [] then 0 else Weight(ms[..|ms| - 1]) + 2 + |ms[|ms| - 1]|
  }

  lemma {:induction false} WeightAppend(a: seq<seq<Byte>>, ms: seq<seq<Byte>>)
    requires GoodMsgs(ms)
    ensures Weight(a + ms) == Weight(a) + |Frames(ms)|
    decreases |ms|
  {
    if ms == [] {
      assert a + ms == a;
    } else {
      FirstFrame(ms);
      WeightAppend(a + [ms[0]], ms[1..]);
      assert (a + [ms[0]]) + ms[1..] == a + ms;
      assert (a + [ms[0]])[..|a|] == a;
    }
  }

  ghost function Held(s: Rx): nat { Weight(s.msgs) + |s.ring| + if s.last.Some? then 2 else 0 }

  lemma TurnHeld(s: Rx)
    requires More(s)
    ensures Held(Turn(s)) <= Held(s)
  {
    var s' := Turn(s);
    if s'.msgs != s.msgs {
      assert s'.msgs[..|s.msgs|] == s.msgs;
    }
  }

  lemma {:induction false} DrainHeld(s: Rx)
    ensures Held(Drain(s)) <= Held(s)
    decreases if s.aborted then 0 else 1 + |s.ring|
  {
    hide Held;
    if !s.aborted && More(s) {
      TurnShrinks(s);
      TurnHeld(s);
      DrainHeld(Turn(s));
    }
  }

  /** The source's wake-ups never dispatch more than the bytes in the ring and still to come:
      a pending length is not among them. */
  lemma {:induction false} LostForGood(s: Rx, chunks: seq<seq<Byte>>)
    ensures Weight(Run(false, s, chunks).msgs) <= Weight(s.msgs) + |s.ring| + |Concat(chunks)|
    decreases |chunks|
  {
    if chunks != [] {
      DrainHeld(Received(false, s, chunks[0]));
      LostForGood(Wake(false, s, chunks[0]), chunks[1..]);
    }
  }

  lemma {:induction false} LiteralRun(s: Rx, chunks: seq<seq<Byte>>, ms: seq<seq<Byte>>)
    requires Settled(s, Concat(chunks), ms) && SmallChunks(chunks) && s.last == None
    ensures Run(false, s, chunks).msgs == s.msgs + ms <==> CleanCuts(ms, |Unparsed(s)|, chunks)
    ensures CleanCuts(ms, |Unparsed(s)|, chunks) ==> Run(false, s, chunks) == Run(true, s, chunks)
    decreases |chunks|
  {
    hide Settled, Drain, CleanCuts, Fits;
    if chunks == [] {
      AllParsed(s, ms);
      NoCuts(ms, |Unparsed(s)|, chunks);
    } else {
      var k := WakeFits(s, chunks[0], Concat(chunks[1..]), ms);
      var s' := Wake(true, s, chunks[0]);
      assert s.(last := None) == s && s' == Wake(false, s, chunks[0]);
      CleanStep(s, chunks, ms, k);
      assert s.msgs + ms[..k] + ms[k..] == s.msgs + ms;
      if s'.last == None {
        LiteralRun(s', chunks[1..], ms[k..]);
      } else {
        HeaderLost(s', chunks[1..], ms[k..]);
      }
    }
  }

  lemma NoCuts(ms: seq<seq<Byte>>, p: nat, chunks: seq<seq<Byte>>)
    requires chunks == []
    ensures CleanCuts(ms, p, chunks)
  {
  }

  lemma {:induction false} HeaderLost(s: Rx, chunks: seq<seq<Byte>>, ms: seq<seq<Byte>>)
    requires Settled(s, Concat(chunks), ms) && s.last.Some?
    ensures Run(false, s, chunks).msgs != s.msgs + ms
  {
    LostForGood(s, chunks);
    WeightAppend(s.msgs, ms);
    assert |Unparsed(s) + Concat(chunks)| == |Frames(ms)|;
  }

  /** The source dispatches the messages sent exactly when no chunk ends inside a frame, more
      than its two length bytes in. */
  lemma {:induction false} SourceParsesExactly(chunks: seq<seq<Byte>>, ms: seq<seq<Byte>>)
    requires GoodMsgs(ms) && Concat(chunks) == Frames(ms) && SmallChunks(chunks)
    ensures Run(false, START, chunks).msgs == ms <==> CleanCuts(ms, 0, chunks)
    ensures CleanCuts(ms, 0, chunks) ==> Run(false, START, chunks) == Rx(None, [], ms, false)
  {
    StartSettled(chunks, ms);
    LiteralRun(START, chunks, ms);
    ChunksDoNotMatter(chunks, ms);
    assert [] + ms == ms && |Unparsed(START)| == 0;
  }
}
