/** Everything the other side may send, mixed in one stream: what arrives of each kind does
    not depend on the others. */
module LinkTraffic {
  import opened Wrappers
  import opened Deframer
  import opened LinkMessages

  /** A message as the sender means it.  A part of a result is the body of a RESULT message;
      a type the receiver does not know is reported and ignored. */
  datatype Sent =
    | ReadDone(done: Completion)
    | Interrupt(vector: nat)
    | Ready
    | Part(part: seq<Byte>)
    | Unknown(kind: nat, body: seq<Byte>)

  ghost predicate Proper(m: Sent) {
    match m
    case ReadDone(c) => c.id < 0x1_0000_0000
    case Interrupt(v) => v < 65536
    case Unknown(k, _) => k < 65536 && k !in {READ_COMP, IRQ, DEV_READY, RESULT}
    case _ => true
  }

  ghost function Encode(m: Sent): (msg: seq<Byte>)
    requires Proper(m)
    ensures 2 <= |msg|
  {
    match m
    case ReadDone(c) => ReadComp(c)
    case Interrupt(v) => Header(IRQ) + Header(v)
    case Ready => Header(DEV_READY)
    case Part(p) => Header(RESULT) + p
    case Unknown(k, body) => Header(k) + body
  }

  ghost predicate AllProper(ss: seq<Sent>) {
    forall i :: 0 <= i < |ss| ==> Proper(ss[i])
  }

  ghost function Messages(ss: seq<Sent>): (ms: seq<seq<Byte>>)
    requires AllProper(ss)
    ensures |ms| == |ss| && Typed(ms)
    decreases |ss|
  {
    if ss == [] then [] else [Encode(ss[0])] + Messages(ss[1..])
  }

  // ---- what was sent of each kind, in order ----

  ghost function Vectors(ss: seq<Sent>): seq<nat>
    decreases |ss|
  {
    if ss == [] then []
    else if ss[0].Interrupt? then [ss[0].vector] + Vectors(ss[1..])
    else Vectors(ss[1..])
  }

  ghost function Parts(ss: seq<Sent>): seq<seq<Byte>>
    decreases |ss|
  {
    if ss == [] then []
    else if ss[0].Part? then [ss[0].part] + Parts(ss[1..])
    else Parts(ss[1..])
  }

  ghost function Reads(ss: seq<Sent>): (cs: seq<Completion>)
    requires AllProper(ss)
    ensures Wide(cs)
    decreases |ss|
  {
    if ss == [] then []
    else if ss[0].ReadDone? then [ss[0].done] + Reads(ss[1..])
    else Reads(ss[1..])
  }

  // ---- one message ----

  lemma DispatchInterrupt(l: Link, v: nat)
    requires v < 65536
    ensures Dispatch(l, Header(IRQ) + Header(v)) == Some(l.(irqs := l.irqs + [v]))
  {
    assert (Header(IRQ) + Header(v))[2..] == Header(v);
  }

  lemma DispatchOther(l: Link, m: Sent)
    requires Proper(m) && (m.Ready? || m.Unknown?)
    ensures Dispatch(l, Encode(m)) == Some(if m.Ready? then l.(ready := true) else l)
  {
    var kind := if m.Ready? then DEV_READY else m.kind;
    assert Encode(m)[0] == kind / 256 && Encode(m)[1] == kind % 256;
  }

  /** The part of the state results go to. */
  ghost predicate SameResult(l: Link, l': Link) {
    l.resultBuf == l'.resultBuf && l.resultLen == l'.resultLen && l.resultReady == l'.resultReady
  }

  lemma DispatchPart(l: Link, lp: Link, p: seq<Byte>)
    requires SameResult(l, lp)
    ensures var msg := Header(RESULT) + p;
      var l1, lp1 := Dispatch(l, msg), Dispatch(lp, msg);
      && (l1 == None <==> lp1 == None)
      && (l1.Some? ==> SameResult(l1.value, lp1.value) && l1.value.waiting == l.waiting
                       && l1.value.irqs == l.irqs && l1.value.ready == l.ready)
  {
    assert (Header(RESULT) + p)[2..] == p;
  }

  // ---- a stream of messages ----

  /** What l became by ss, of which the reads alone would have made lr and the parts alone lp. */
  ghost predicate Delivered(l: Link, l': Link, lr: Link, lp: Link, ss: seq<Sent>) {
    && l'.waiting == lr.waiting && SameResult(l', lp)
    && l'.irqs == l.irqs + Vectors(ss)
    && (l'.ready <==> l.ready || Ready in ss)
  }

  lemma FeedCons(l: Link, ss: seq<Sent>)
    requires AllProper(ss) && ss != []
    ensures AllProper(ss[1..])
    ensures Feed(l, Messages(ss)) == match Dispatch(l, Encode(ss[0])) case None => None case Some(l1) => Feed(l1, Messages(ss[1..]))
    ensures Ready in ss <==> ss[0] == Ready || Ready in ss[1..]
  {
    assert Messages(ss)[1..] == Messages(ss[1..]);
  }

  lemma ReadsCons(l: Link, cs: seq<Completion>)
    requires Wide(cs) && cs != []
    ensures Feed(l, ReadComps(cs)) == Feed(l.(waiting := Complete(l.waiting, cs[0].id, cs[0].data)), ReadComps(cs[1..]))
  {
    DispatchComp(l, cs[0]);
    assert ReadComps(cs)[1..] == ReadComps(cs[1..]);
  }

  lemma PartsCons(l: Link, fs: seq<seq<Byte>>)
    requires fs != []
    ensures Feed(l, Rest(fs)) == match Dispatch(l, Header(RESULT) + fs[0]) case None => None case Some(l1) => Feed(l1, Rest(fs[1..]))
  {
    assert Rest(fs)[1..] == Rest(fs[1..]);
  }

  /** One message: who sees it, and who can fail on it. */
  ghost function AfterRead(lr: Link, m: Sent): Link
    requires Proper(m)
  {
    if m.ReadDone? then lr.(waiting := Complete(lr.waiting, m.done.id, m.done.data)) else lr
  }

  ghost function AfterPart(lp: Link, m: Sent): Option<Link>
    requires Proper(m)
  {
    if m.Part? then Dispatch(lp, Encode(m)) else Some(lp)
  }

  lemma KindStep(l: Link, lr: Link, lp: Link, m: Sent)
    requires Proper(m) && lr.waiting == l.waiting && SameResult(l, lp)
    ensures var l1, lr1, lp1 := Dispatch(l, Encode(m)), AfterRead(lr, m), AfterPart(lp, m);
      && (l1 == None <==> lp1 == None)
      && (l1.Some? ==> lr1.waiting == l1.value.waiting && SameResult(l1.value, lp1.value)
                       && l1.value.irqs == (if m.Interrupt? then l.irqs + [m.vector] else l.irqs)
                       && (l1.value.ready <==> l.ready || m == Ready))
  {
    hide Dispatch;
    match m
    case ReadDone(c) => DispatchComp(l, c);
    case Interrupt(v) => DispatchInterrupt(l, v);
    case Part(p) => DispatchPart(l, lp, p);
    case _ => DispatchOther(l, m);
  }

  lemma KindCons(lr: Link, lp: Link, ss: seq<Sent>)
    requires AllProper(ss) && ss != []
    ensures AllProper(ss[1..])
    ensures Feed(lr, ReadComps(Reads(ss))) == Feed(AfterRead(lr, ss[0]), ReadComps(Reads(ss[1..])))
    ensures Feed(lp, Rest(Parts(ss)))
            == match AfterPart(lp, ss[0]) case None => None case Some(lp1) => Feed(lp1, Rest(Parts(ss[1..])))
  {
    hide Dispatch, Complete, ReadComps, Rest, Feed;
    if ss[0].ReadDone? { ReadsCons(lr, Reads(ss)); }
    if ss[0].Part? { PartsCons(lp, Parts(ss)); }
  }

  lemma {:induction false} ReadsAccepted(l: Link, cs: seq<Completion>)
    requires Wide(cs)
    ensures Feed(l, ReadComps(cs)).Some?
    decreases |cs|
  {
    hide Complete;
    if cs != [] {
      ReadsCons(l, cs);
      ReadsAccepted(l.(waiting := Complete(l.waiting, cs[0].id, cs[0].data)), cs[1..]);
    }
  }

  /** In any mixture every interrupt reaches the handler with its vector, in order; the device
      is ready exactly if it said so; reads fare as by the read completions alone and the
      result as by its parts alone, and only these can fail an assertion. */
  lemma {:induction false} EachKindDelivered(l: Link, lr: Link, lp: Link, ss: seq<Sent>)
    requires AllProper(ss) && lr.waiting == l.waiting && SameResult(l, lp)
    ensures var l', lr', lp' := Feed(l, Messages(ss)), Feed(lr, ReadComps(Reads(ss))), Feed(lp, Rest(Parts(ss)));
      && lr'.Some? && (l' == None <==> lp' == None)
      && (l'.Some? ==> Delivered(l, l'.value, lr'.value, lp'.value, ss))
    decreases |ss|
  {
    hide Dispatch, Complete, ReadComps, Rest, Feed, Messages, Encode, AfterRead, AfterPart, Reads, Parts, SameResult;
    ReadsAccepted(lr, Reads(ss));
    if ss == [] {
      Nothing(l, lr, lp, ss);
    } else {
      FeedCons(l, ss);
      KindCons(lr, lp, ss);
      KindStep(l, lr, lp, ss[0]);
      var l1 := Dispatch(l, Encode(ss[0]));
      if l1.Some? {
        EachKindDelivered(l1.value, AfterRead(lr, ss[0]), AfterPart(lp, ss[0]).value, ss[1..]);
      }
    }
  }

  lemma Nothing(l: Link, lr: Link, lp: Link, ss: seq<Sent>)
    requires AllProper(ss) && ss == []
    ensures Feed(l, Messages(ss)) == Some(l) && Feed(lr, ReadComps(Reads(ss))) == Some(lr)
            && Feed(lp, Rest(Parts(ss))) == Some(lp)
  {
  }

  // ---- from the socket to the fields ----

  /** A mixed stream cut cleanly by the socket. */
  ghost predicate Arrives(ss: seq<Sent>, chunks: seq<seq<Byte>>) {
    && AllProper(ss) && GoodMsgs(Messages(ss)) && SmallChunks(chunks)
    && Concat(chunks) == Frames(Messages(ss)) && CleanCuts(Messages(ss), 0, chunks)
  }

  /** Interrupts and readiness, whatever else is sent. */
  lemma {:induction false} InterruptsArrive(l: Link, ss: seq<Sent>, chunks: seq<seq<Byte>>)
    requires Arrives(ss, chunks)
    ensures var ms := Run(false, START, chunks).msgs;
      Typed(ms) && var l' := Feed(l, ms);
      && (l' == None <==> Feed(l, Rest(Parts(ss))) == None)
      && (l'.Some? ==> l'.value.irqs == l.irqs + Vectors(ss) && (l'.value.ready <==> l.ready || Ready in ss))
  {
    SourceParsesExactly(chunks, Messages(ss));
    EachKindDelivered(l, l, l, ss);
  }

  /** After report() has cleared the buffer: read completions, interrupts and one result in
      fragments, mixed in any way.  Each read gets the data sent for it, the handler every
      vector, and report() the whole result. */
  lemma {:induction false} AllArrive(l: Link, ss: seq<Sent>, chunks: seq<seq<Byte>>, fs: seq<seq<Byte>>)
    requires Arrives(ss, chunks) && l.resultBuf == [] && !l.resultReady
    requires fs != [] && |Concat(fs)| < 65536 && (|fs| == 1 || fs[0] != []) && Rest(Parts(ss)) == Result(fs)
    ensures var ms := Run(false, START, chunks).msgs;
      Typed(ms) && var l' := Feed(l, ms);
      && l'.Some? && l'.value.resultBuf == Concat(fs) && l'.value.resultReady
      && l'.value.irqs == l.irqs + Vectors(ss) && (l'.value.ready <==> l.ready || Ready in ss)
      && Routed(l.waiting, l'.value.waiting, Reads(ss))
  {
    hide Routed, Feed, Run;
    SourceParsesExactly(chunks, Messages(ss));
    EachKindDelivered(l, l, l, ss);
    ResultAssembledExactly(l, fs);
    CompletionsRouted(l, Reads(ss));
  }
}
