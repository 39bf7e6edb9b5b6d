/** Producer and consumer of one ring, interleaved: every load of the other side's index,
    every slot access and every index store is a step of its own. */
module SpscRing {
  import opened Arith
  import opened Wrappers
  import opened RingBuffer

  /** Inside writeBuff (or insert): the local head and the elements still to be stored. */
  datatype Producer<T> = NotWriting | Writing(tmpHead: nat, rest: seq<T>)

  /** Inside readBuff (or remove): the local tail and the number of slots still to be read. */
  datatype Consumer = NotReading | Reading(tmpTail: nat, left: nat)

  /** The ring and both sides.  The last four fields are history: the elements writes have
      accepted, the elements read, and how many are published and released. */
  datatype Ring<T> = Ring(
    size: nat, wrap: nat, data: seq<T>, head: nat, tail: nat, prod: Producer<T>, cons: Consumer,
    given: seq<T>, out: seq<T>, published: nat, released: nat)

  datatype Action<T> = StartWrite(buff: seq<T>) | StoreSlot | StoreHead | StartRead(count: nat) | LoadSlot | StoreTail

  function Init<T>(size: nat, wrap: nat, data: seq<T>): Ring<T> {
    Ring(size, wrap, data, 0, 0, NotWriting, NotReading, [], [], 0, 0)
  }

  /** StartWrite loads the tail, StartRead the head; each fixes how much will be moved. */
  function Apply<T>(s: Ring<T>, a: Action<T>): Option<Ring<T>>
    requires Sizes(s.size, s.wrap)
  {
    match a
    case StartWrite(buff) =>
      if s.prod != NotWriting then None
      else
        var available := s.size - Sub(s.head, s.tail, s.wrap);
        var n: nat := if available < 0 then 0 else Fewer(|buff|, available);
        Some(s.(prod := Writing(s.head, buff[..n]), given := s.given + buff[..n]))
    case StoreSlot =>
      if !s.prod.Writing? || s.prod.rest == [] || |s.data| != s.size then None
      else Some(s.(data := s.data[Index(s.prod.tmpHead, s.size) := s.prod.rest[0]],
                   prod := Writing(Add(s.prod.tmpHead, 1, s.wrap), s.prod.rest[1..])))
    case StoreHead =>
      if !s.prod.Writing? || s.prod.rest != [] then None
      else Some(s.(head := s.prod.tmpHead, prod := NotWriting, published := |s.given|))
    case StartRead(count) =>
      if s.cons != NotReading then None
      else Some(s.(cons := Reading(s.tail, Fewer(count, Sub(s.head, s.tail, s.wrap)))))
    case LoadSlot =>
      if !s.cons.Reading? || s.cons.left == 0 || |s.data| != s.size then None
      else Some(s.(out := s.out + [s.data[Index(s.cons.tmpTail, s.size)]],
                   cons := Reading(Add(s.cons.tmpTail, 1, s.wrap), s.cons.left - 1)))
    case StoreTail =>
      if !s.cons.Reading? || s.cons.left != 0 then None
      else Some(s.(tail := s.cons.tmpTail, cons := NotReading, released := |s.out|))
  }

  // ---- the invariant ----

  /** Elements stored in slots so far. */
  function Stored<T>(s: Ring<T>): int {
    |s.given| - if s.prod.Writing? then |s.prod.rest| else 0
  }

  ghost predicate Indices<T>(s: Ring<T>) {
    && Sizes(s.size, s.wrap) && |s.data| == s.size
    && s.head == Index(s.published, s.wrap) && s.tail == Index(s.released, s.wrap)
    && s.released <= |s.out| <= s.published <= Stored(s) && |s.given| <= s.released + s.size
  }

  ghost predicate Locals<T>(s: Ring<T>) {
    && 0 < s.wrap
    && (match s.prod
        case NotWriting => s.published == |s.given|
        case Writing(h, rest) => 0 <= Stored(s) && h == Index(Stored(s), s.wrap) && s.given[Stored(s)..] == rest)
    && (match s.cons
        case NotReading => s.released == |s.out|
        case Reading(t, left) => t == Index(|s.out|, s.wrap) && |s.out| + left <= s.published)
  }

  ghost predicate SlotHolds<T>(s: Ring<T>, i: nat) {
    0 < s.size == |s.data| && i < |s.given| && s.data[Index(i, s.size)] == s.given[i]
  }

  /** Released slots may be overwritten; the others hold what was stored. */
  ghost predicate Slots<T>(s: Ring<T>) {
    forall i :: s.released <= i < Stored(s) ==> SlotHolds(s, i)
  }

  ghost predicate Inv<T>(s: Ring<T>) {
    Indices(s) && Locals(s) && Slots(s) && s.out == s.given[..|s.out|]
  }

  // ---- every step keeps it ----

  lemma InitInv<T>(size: nat, wrap: nat, data: seq<T>)
    requires Sizes(size, wrap) && |data| == size
    ensures Inv(Init(size, wrap, data))
  {
  }

  lemma {:induction false} StartWriteKeeps<T>(s: Ring<T>, buff: seq<T>)
    requires Inv(s) && Apply(s, StartWrite(buff)).Some?
    ensures Inv(Apply(s, StartWrite(buff)).value)
    ensures var n := Fewer(|buff|, s.size - (s.published - s.released));
      Apply(s, StartWrite(buff)).value.given == s.given + buff[..n]
  {
    hide Index;
    SubExact(s.published, s.released, s.wrap);
    var s' := Apply(s, StartWrite(buff)).value;
    assert s'.given[Stored(s')..] == s'.prod.rest;
    forall i | s'.released <= i < Stored(s') ensures SlotHolds(s', i) { assert SlotHolds(s, i); }
  }

  /** A slot is never written while it holds an element not yet released. */
  lemma StoreSlotIsFree<T>(s: Ring<T>, i: nat)
    requires Inv(s) && s.prod.Writing? && s.prod.rest != [] && s.released <= i < Stored(s)
    ensures Index(s.prod.tmpHead, s.size) != Index(i, s.size)
  {
    hide Index;
    MaskExact(Stored(s), s.size, s.wrap);
    IndexDistinct(i, Stored(s), s.size);
  }

  lemma {:induction false} StoreSlotKeeps<T>(s: Ring<T>)
    requires Inv(s) && Apply(s, StoreSlot).Some?
    ensures Inv(Apply(s, StoreSlot).value)
  {
    hide Index;
    var s' := Apply(s, StoreSlot).value;
    var w := Stored(s);
    IndexAdd(w, 1, s.wrap);
    MaskExact(w, s.size, s.wrap);
    assert s.given[w..] == s.prod.rest;
    assert s'.given[w + 1..] == s.prod.rest[1..];
    forall i | s'.released <= i < Stored(s') ensures SlotHolds(s', i) {
      if i < w {
        assert SlotHolds(s, i);
        StoreSlotIsFree(s, i);
      }
    }
  }

  lemma StoreHeadKeeps<T>(s: Ring<T>)
    requires Inv(s) && Apply(s, StoreHead).Some?
    ensures Inv(Apply(s, StoreHead).value)
  {
    hide Index;
    var s' := Apply(s, StoreHead).value;
    forall i | s'.released <= i < Stored(s') ensures SlotHolds(s', i) { assert SlotHolds(s, i); }
  }

  lemma StartReadKeeps<T>(s: Ring<T>, count: nat)
    requires Inv(s) && Apply(s, StartRead(count)).Some?
    ensures Inv(Apply(s, StartRead(count)).value)
    ensures Apply(s, StartRead(count)).value.cons.left == Fewer(count, s.published - s.released)
  {
    hide Index;
    SubExact(s.published, s.released, s.wrap);
    var s' := Apply(s, StartRead(count)).value;
    forall i | s'.released <= i < Stored(s') ensures SlotHolds(s', i) { assert SlotHolds(s, i); }
  }

  /** A slot is read only after publication, and holds the next element then. */
  lemma LoadSlotIsPublished<T>(s: Ring<T>)
    requires Inv(s) && s.cons.Reading? && 0 < s.cons.left
    ensures |s.out| < s.published && s.data[Index(s.cons.tmpTail, s.size)] == s.given[|s.out|]
  {
    hide Index;
    MaskExact(|s.out|, s.size, s.wrap);
    assert SlotHolds(s, |s.out|);
  }

  lemma LoadSlotKeeps<T>(s: Ring<T>)
    requires Inv(s) && Apply(s, LoadSlot).Some?
    ensures Inv(Apply(s, LoadSlot).value)
  {
    hide Index;
    var s' := Apply(s, LoadSlot).value;
    LoadSlotIsPublished(s);
    IndexAdd(|s.out|, 1, s.wrap);
    forall i | s'.released <= i < Stored(s') ensures SlotHolds(s', i) { assert SlotHolds(s, i); }
  }

  lemma StoreTailKeeps<T>(s: Ring<T>)
    requires Inv(s) && Apply(s, StoreTail).Some?
    ensures Inv(Apply(s, StoreTail).value)
  {
    hide Index;
    var s' := Apply(s, StoreTail).value;
    forall i | s'.released <= i < Stored(s') ensures SlotHolds(s', i) { assert SlotHolds(s, i); }
  }

  lemma {:induction false} StepKeeps<T>(s: Ring<T>, a: Action<T>)
    requires Inv(s) && Apply(s, a).Some?
    ensures var s' := Apply(s, a).value; Inv(s') && s.given <= s'.given && s.out <= s'.out
  {
    hide Index;
    match a
    case StartWrite(buff) => StartWriteKeeps(s, buff);
    case StoreSlot => StoreSlotKeeps(s);
    case StoreHead => StoreHeadKeeps(s);
    case StartRead(count) => StartReadKeeps(s, count);
    case LoadSlot => LoadSlotKeeps(s);
    case StoreTail => StoreTailKeeps(s);
  }

  // ---- runs ----

  /** The state after a sequence of enabled steps, in any interleaving. */
  ghost function Exec<T>(s: Ring<T>, acts: seq<Action<T>>): Option<Ring<T>>
    requires Sizes(s.size, s.wrap)
    decreases |acts|
  {
    if acts == [] then Some(s)
    else
      match Apply(s, acts[0])
      case None => None
      case Some(s') => Exec(s', acts[1..])
  }

  lemma {:induction false} ExecKeeps<T>(s: Ring<T>, acts: seq<Action<T>>)
    requires Inv(s) && Exec(s, acts).Some?
    ensures Inv(Exec(s, acts).value)
    decreases |acts|
  {
    if acts != [] {
      StepKeeps(s, acts[0]);
      ExecKeeps(Apply(s, acts[0]).value, acts[1..]);
    }
  }

  /** However the two sides interleave and however often the indices wrap, the consumer's
      output is a prefix of what was published, in order; and whenever the ring is empty with
      both sides outside their operations, everything accepted has come out. */
  lemma {:induction false} OutputIsPrefix<T>(size: nat, wrap: nat, data: seq<T>, acts: seq<Action<T>>)
    requires Sizes(size, wrap) && |data| == size && Exec(Init(size, wrap, data), acts).Some?
    ensures var s := Exec(Init(size, wrap, data), acts).value;
      && |s.out| <= s.published <= |s.given| && s.out == s.given[..|s.out|]
      && (s.prod == NotWriting && s.cons == NotReading ==> (s.head == s.tail <==> s.out == s.given))
  {
    InitInv(size, wrap, data);
    ExecKeeps(Init(size, wrap, data), acts);
    var s := Exec(Init(size, wrap, data), acts).value;
    if s.released < s.published { IndexDistinct(s.released, s.published, s.wrap); }
    assert s.given[..|s.given|] == s.given;
  }

  // ---- neither side waits for the other ----

  function Stores<T>(n: nat): seq<Action<T>> {
    if n == 0 then [StoreHead] else [StoreSlot] + Stores(n - 1)
  }

  function Loads<T>(n: nat): seq<Action<T>> {
    if n == 0 then [StoreTail] else [LoadSlot] + Loads(n - 1)
  }

  /** A write begun ends after its own steps, wherever the consumer is, and publishes all it
      accepted. */
  lemma {:induction false} WriteFinishes<T>(s: Ring<T>)
    requires Inv(s) && s.prod.Writing?
    ensures var s' := Exec(s, Stores(|s.prod.rest|));
      && s'.Some? && Inv(s'.value) && s'.value.prod == NotWriting && s'.value.cons == s.cons
      && s'.value.given == s.given && s'.value.published == |s.given|
    decreases |s.prod.rest|
  {
    hide Inv;
    var a := if s.prod.rest == [] then StoreHead else StoreSlot;
    SidesSized(s);
    StepKeeps(s, a);
    assert Exec(s, Stores(|s.prod.rest|)) == Exec(Apply(s, a).value, Stores(|s.prod.rest|)[1..]);
    if s.prod.rest != [] { WriteFinishes(Apply(s, a).value); }
  }

  /** So does a read, and it releases the next elements published, as many as it began with. */
  lemma {:induction false} ReadFinishes<T>(s: Ring<T>)
    requires Inv(s) && s.cons.Reading?
    ensures var s' := Exec(s, Loads(s.cons.left));
      && s'.Some? && Inv(s'.value) && s'.value.cons == NotReading && s'.value.prod == s.prod
      && |s'.value.out| == |s.out| + s.cons.left == s'.value.released <= |s.given| && s'.value.out == s.given[..|s'.value.out|]
    decreases s.cons.left
  {
    hide Inv;
    var a := if s.cons.left == 0 then StoreTail else LoadSlot;
    SidesSized(s);
    StepKeeps(s, a);
    var s1 := Apply(s, a).value;
    SidesSized(s1);
    assert Exec(s, Loads(s.cons.left)) == Exec(s1, Loads(s.cons.left)[1..]);
    if s.cons.left != 0 { ReadFinishes(s1); }
  }

  lemma SidesSized<T>(s: Ring<T>)
    requires Inv(s)
    ensures Sizes(s.size, s.wrap) && |s.data| == s.size && |s.out| <= |s.given| && s.out == s.given[..|s.out|]
  {
  }
}
