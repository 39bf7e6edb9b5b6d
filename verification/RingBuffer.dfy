/** The single-producer single-consumer ring: free-running indices of an n-bit type over a
    power-of-two buffer.  `wrap` is 2^n; `& buffer_mask` is the remainder by `size`. */
module RingBuffer {
  import opened Arith
  import opened Wrappers

  // ---- index arithmetic ----

  /** The sizes the static assertions admit: size divides 2^n and is at most 2^(n-1). */
  predicate Sizes(size: nat, wrap: nat) {
    0 < size && 2 * size <= wrap && Index(wrap, size) == 0
  }

  lemma SizesPositive(size: nat, wrap: nat)
    requires Sizes(size, wrap)
    ensures 0 < size && 0 < wrap
  {
  }

  function Add(a: nat, n: nat, wrap: nat): nat
    requires 0 < wrap
  {
    Index(a + n, wrap)
  }

  /** Whole laps make no difference. */
  lemma {:induction false} IndexLaps(a: nat, b: nat, size: nat)
    requires 0 < size && Index(b, size) == 0
    ensures Index(a + b, size) == Index(a, size)
    decreases b
  {
    if b >= size { IndexLaps(a, b - size, size); }
  }

  /** Masking a wrapped counter selects the slot of the true counter. */
  lemma {:induction false} MaskExact(a: nat, size: nat, wrap: nat)
    requires Sizes(size, wrap)
    ensures Index(Index(a, wrap), size) == Index(a, size)
    decreases a
  {
    if a >= wrap {
      MaskExact(a - wrap, size, wrap);
      IndexLaps(a - wrap, wrap, size);
    }
  }

  /** A wrapped index stands for a counter. */
  predicate Tracks(index: nat, n: nat, wrap: nat) {
    0 < wrap && index == Index(n, wrap)
  }

  lemma TracksAdd(index: nat, n: nat, k: nat, wrap: nat)
    requires Tracks(index, n, wrap)
    ensures Tracks(Add(index, k, wrap), n + k, wrap)
  {
    hide Index;
    IndexAdd(n, k, wrap);
  }

  lemma TracksSub(a: nat, m: nat, b: nat, n: nat, wrap: nat)
    requires Tracks(a, m, wrap) && Tracks(b, n, wrap) && n <= m < n + wrap
    ensures Sub(a, b, wrap) == m - n && (a == b <==> m == n)
  {
    hide Index;
    SubExact(m, n, wrap);
    if n < m { IndexDistinct(n, m, wrap); }
  }

  /** In an index type narrower than int the subtraction in insert is carried out in int, so
      the comparison with the size sees a full ring exactly when the head has not wrapped
      past the tail; in size_t, the type the simulator uses, it always does. */
  lemma NarrowFullCheck(written: nat, taken: nat, size: nat, wrap: nat)
    requires Sizes(size, wrap) && written == taken + size
    ensures Sub(Index(written, wrap), Index(taken, wrap), wrap) == size
    ensures Index(written, wrap) - Index(taken, wrap) == size <==> Index(taken, wrap) + size < wrap
  {
    SubExact(written, taken, wrap);
    IndexAdd(taken, size, wrap);
  }

  // ---- the class ----

  ghost predicate SlotIn<T>(d: seq<T>, s: seq<T>, i: nat, size: nat) {
    i < |s| && 0 < size == |d| && d[Index(i, size)] == s[i]
  }

  /** A store behind the newest element reaches no slot of the size - 1 elements before it. */
  lemma StoreKeeps<T>(d: seq<T>, s: seq<T>, x: T, i: nat, size: nat)
    requires 0 < size == |d| && i <= |s| < i + size + 1 && (i < |s| ==> |s| < i + size && SlotIn(d, s, i, size))
    ensures SlotIn(d[Index(|s|, size) := x], s + [x], i, size)
  {
    hide Index;
    if i < |s| { IndexDistinct(i, |s|, size); }
  }

  function Fewer(a: nat, b: nat): nat { if a < b then a else b }

  class Ringbuffer<T> {
    const size: nat
    const wrap: nat
    const data: array<T>
    var head: nat
    var tail: nat

    /** Everything ever inserted, and how much of it was taken out. */
    ghost var input: seq<T>
    ghost var taken: nat

    /** The slot of counter i holds element i of s. */
    ghost predicate Slot(s: seq<T>, i: nat)
      reads data
    {
      SlotIn(data[..], s, i, size)
    }

    ghost predicate Valid()
      reads this, data
    {
      && Sizes(size, wrap) && 0 < wrap && 0 < size == data.Length
      && Tracks(head, |input|, wrap) && Tracks(tail, taken, wrap)
      && taken <= |input| <= taken + size
      && Hold(input, taken)
    }

    ghost function Contents(): seq<T>
      reads this, data
      requires Valid()
    {
      input[taken..]
    }

    constructor (size: nat, wrap: nat, blank: T)
      requires Sizes(size, wrap)
      ensures Valid() && Contents() == [] && this.size == size && this.wrap == wrap && fresh(data)
      ensures input == [] && taken == 0
    {
      this.size, this.wrap := size, wrap;
      data := new T[size](_ => blank);
      head, tail, input, taken := 0, 0, [], 0;
      new;
    }

    method ReadAvailable() returns (n: nat)
      requires Valid()
      ensures n == |Contents()|
    {
      hide Index;
      TracksSub(head, |input|, tail, taken, wrap);
      n := Sub(head, tail, wrap);
    }

    method WriteAvailable() returns (n: nat)
      requires Valid()
      ensures n == size - |Contents()|
    {
      hide Index;
      TracksSub(head, |input|, tail, taken, wrap);
      n := size - Sub(head, tail, wrap);
    }

    /** The elements of s from counter n on are in their slots. */
    ghost predicate Hold(s: seq<T>, n: nat)
      reads data
    {
      forall i :: n <= i < |s| ==> Slot(s, i)
    }

    /** Stores x in the slot behind the newest element of s; the indices are not moved. */
    method Store(at: nat, x: T, ghost s: seq<T>, ghost n: nat)
      requires Sizes(size, wrap) && data.Length == size && Tracks(at, |s|, wrap)
      requires Hold(s, n) && |s| < n + size
      modifies data
      ensures Hold(s + [x], n)
    {
      hide SlotIn, Index;
      ghost var was := data[..];
      MaskExact(|s|, size, wrap);
      ghost var now, s' := was[Index(|s|, size) := x], s + [x];
      forall i | n <= i < |s'| ensures SlotIn(now, s', i, size) {
        assert i < |s| ==> Slot(s, i);
        StoreKeeps(was, s, x, i, size);
      }
      data[Index(at, size)] := x;
      assert data[..] == now;
    }

    method Insert(x: T) returns (ok: bool)
      requires Valid()
      modifies this`head, this`input, data
      ensures Valid() && taken == old(taken)
      ensures ok <==> |old(Contents())| < size
      ensures Contents() == if ok then old(Contents()) + [x] else old(Contents())
      ensures input == if ok then old(input) + [x] else old(input)
    {
      hide Index;
      TracksSub(head, |input|, tail, taken, wrap);
      if Sub(head, tail, wrap) == size {
        return false;
      }
      Store(head, x, input, taken);
      TracksAdd(head, |input|, 1, wrap);
      head := Add(head, 1, wrap);
      input := input + [x];
      ok := true;
    }

    method Remove() returns (r: Option<T>)
      requires Valid()
      modifies this`tail, this`taken
      ensures Valid() && input == old(input)
      ensures r == if old(Contents()) == [] then None else Some(old(Contents())[0])
      ensures Contents() == if r == None then [] else old(Contents())[1..]
    {
      hide Index;
      TracksSub(head, |input|, tail, taken, wrap);
      if tail == head {
        return None;
      }
      SlotAt(tail, taken, taken);
      r := Some(data[Index(tail, size)]);
      TracksAdd(tail, taken, 1, wrap);
      tail := Add(tail, 1, wrap);
      taken := taken + 1;
    }

    method RemoveMany(cnt: nat) returns (n: nat)
      requires Valid()
      modifies this`tail, this`taken
      ensures Valid() && input == old(input)
      ensures n == Fewer(cnt, |old(Contents())|) && Contents() == old(Contents())[n..]
    {
      hide Index;
      TracksSub(head, |input|, tail, taken, wrap);
      var avail := Sub(head, tail, wrap);
      n := if cnt > avail then avail else cnt;
      TracksAdd(tail, taken, n, wrap);
      tail := Add(tail, n, wrap);
      taken := taken + n;
    }

    /** The element `index` places behind the oldest one; peek() is At(0). */
    method At(index: nat) returns (r: Option<T>)
      requires Valid()
      ensures r == if index < |Contents()| then Some(Contents()[index]) else None
    {
      hide Index;
      TracksSub(head, |input|, tail, taken, wrap);
      if Sub(head, tail, wrap) <= index {
        return None;
      }
      TracksAdd(tail, taken, index, wrap);
      SlotAt(Add(tail, index, wrap), taken + index, taken);
      r := Some(data[Index(Add(tail, index, wrap), size)]);
    }

    /** The copying loop of both forms of writeBuff. */
    method StoreRun(at: nat, buff: seq<T>, ghost s: seq<T>, ghost n: nat) returns (tmpHead: nat)
      requires Sizes(size, wrap) && data.Length == size && Tracks(at, |s|, wrap)
      requires Hold(s, n) && |s| + |buff| <= n + size
      modifies data
      ensures Tracks(tmpHead, |s + buff|, wrap) && Hold(s + buff, n)
    {
      hide Sizes, Add, Hold, Tracks, Index;
      SizesPositive(size, wrap);
      tmpHead := at;
      var i := 0;
      assert s + buff[..0] == s;
      while i < |buff|
        invariant 0 <= i <= |buff| && Tracks(tmpHead, |s + buff[..i]|, wrap)
        invariant Hold(s + buff[..i], n)
      {
        ghost var done := s + buff[..i];
        Store(tmpHead, buff[i], done, n);
        TracksAdd(tmpHead, |done|, 1, wrap);
        tmpHead := Add(tmpHead, 1, wrap);
        i := i + 1;
        assert s + buff[..i] == done + [buff[i - 1]];
      }
      assert s + buff[..|buff|] == s + buff;
    }

    /** Masking the index of an element present finds it. */
    lemma SlotAt(at: nat, i: nat, n: nat)
      requires Sizes(size, wrap) && data.Length == size && Hold(input, n) && n <= i < |input| && Tracks(at, i, wrap)
      ensures Index(at, size) < data.Length && data[Index(at, size)] == input[i]
    {
      hide Index;
      MaskExact(i, size, wrap);
      assert Slot(input, i);
    }

    /** The copying loop of both forms of readBuff, from counter n on. */
    method LoadRun(at: nat, count: nat, ghost n: nat) returns (out: seq<T>, tmpTail: nat)
      requires Sizes(size, wrap) && data.Length == size && Tracks(at, n, wrap) && n + count <= |input|
      requires Hold(input, n)
      ensures out == input[n..n + count] && Tracks(tmpTail, n + count, wrap)
    {
      hide Sizes, Add, Hold, Tracks, Index;
      SizesPositive(size, wrap);
      tmpTail, out := at, [];
      while |out| < count
        invariant |out| <= count && out == input[n..n + |out|] && Tracks(tmpTail, n + |out|, wrap)
      {
        SlotAt(tmpTail, n + |out|, n);
        TracksAdd(tmpTail, n + |out|, 1, wrap);
        out := out + [data[Index(tmpTail, size)]];
        tmpTail := Add(tmpTail, 1, wrap);
      }
    }

    method WriteBuff(buff: seq<T>) returns (n: nat)
      requires Valid()
      modifies this`head, this`input, data
      ensures Valid() && taken == old(taken)
      ensures n == Fewer(|buff|, size - |old(Contents())|)
      ensures input == old(input) + buff[..n] && Contents() == old(Contents()) + buff[..n]
    {
      hide Index;
      TracksSub(head, |input|, tail, taken, wrap);
      var available := size - Sub(head, tail, wrap);
      n := if available < |buff| then available else |buff|;
      PublishRun(buff[..n]);
    }

    method PublishRun(run: seq<T>)
      requires Valid() && |Contents()| + |run| <= size
      modifies this`head, this`input, data
      ensures Valid() && input == old(input) + run && taken == old(taken)
    {
      hide Hold, Sizes, Index;
      var tmpHead := StoreRun(head, run, input, taken);
      head, input := tmpHead, input + run;
    }

    method ReadBuff(count: nat) returns (out: seq<T>)
      requires Valid()
      modifies this`tail, this`taken
      ensures Valid() && input == old(input)
      ensures |out| == Fewer(count, |old(Contents())|)
      ensures out == old(Contents())[..|out|] && Contents() == old(Contents())[|out|..]
    {
      hide Index;
      TracksSub(head, |input|, tail, taken, wrap);
      var available := Sub(head, tail, wrap);
      var toRead := if available < count then available else count;
      var tmpTail;
      out, tmpTail := LoadRun(tail, toRead, taken);
      tail, taken := tmpTail, taken + toRead;
    }

    /** The second form of writeBuff: in batches, letting the consumer run in between.  It stops
        early only on a full ring. */
    method WriteBuffInBatches(buff: seq<T>, countToCallback: nat) returns (written: nat)
      requires Valid()
      modifies this`head, this`tail, this`input, this`taken, data
      ensures Valid() && written <= |buff| && input == old(input) + buff[..written] && taken >= old(taken)
      ensures written < |buff| ==> |Contents()| == size
    {
      hide Index;
      written := 0;
      var toWrite := if countToCallback != 0 && countToCallback < |buff| then countToCallback else |buff|;
      while written < |buff|
        invariant Valid() && written <= |buff| && input == old(input) + buff[..written] && taken >= old(taken)
        invariant written < |buff| ==> 0 < toWrite && written + toWrite <= |buff|
        decreases |buff| - written
      {
        var available := WriteAvailable();
        if available == 0 {
          break;
        }
        if toWrite > available {
          toWrite := available;
        }
        PublishRun(buff[written..written + toWrite]);
        written := written + toWrite;
        ConsumerTurn();
        toWrite := |buff| - written;
      }
    }

    /** The second form of readBuff; `producer` is what the other side writes meanwhile.  It
        stops early only on an empty ring. */
    method ReadBuffInBatches(count: nat, countToCallback: nat, producer: nat -> seq<T>) returns (out: seq<T>)
      requires Valid()
      modifies this`head, this`tail, this`input, this`taken, data
      ensures Valid() && old(input) <= input && |out| <= count
      ensures taken == old(taken) + |out| <= |input| && out == input[old(taken)..taken]
      ensures |out| < count ==> Contents() == []
    {
      hide Index;
      out := [];
      var toRead := if countToCallback != 0 && countToCallback < count then countToCallback else count;
      while |out| < count
        invariant Valid() && old(input) <= input && |out| <= count
        invariant taken == old(taken) + |out| <= |input| && out == input[old(taken)..taken]
        invariant |out| < count ==> 0 < toRead && |out| + toRead <= count
        decreases count - |out|
      {
        var available := ReadAvailable();
        if available == 0 {
          break;
        }
        if toRead > available {
          toRead := available;
        }
        var part := ReadBuff(toRead);
        out := out + part;
        ProducerTurn(producer(|out|));
        toRead := count - |out|;
      }
    }

    /** What the other side may do while a callback runs. */
    method ConsumerTurn()
      requires Valid()
      modifies this`tail, this`taken
      ensures Valid() && taken >= old(taken)
    {
      var n: int := *;
      if 0 < n {
        var _ := RemoveMany(n);
      }
    }

    method ProducerTurn(xs: seq<T>)
      requires Valid()
      modifies this`head, this`input, data
      ensures Valid() && old(input) <= input && taken == old(taken)
    {
      var _ := WriteBuff(xs);
    }
  }
}
