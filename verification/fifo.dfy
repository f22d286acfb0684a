/// The 32-byte ring buffer behind each direct-sound channel, and the bounded
/// byte queue it implements.
module SoundFifo {
  import opened Arithmetic

  const FIFO_SIZE := 32

  /** Reinterpret a byte as a two's-complement sample. */
  function Signed(b: Byte): (v: int)
    ensures -128 <= v < 128 && (v - b) % 256 == 0
  {
    if b < 128 then b else b - 256
  }

  // ------------------------------------------------------------ the byte queue

  type Queue = q: seq<int> | |q| <= FIFO_SIZE

  function Push(q: Queue, v: int): Queue {
    if |q| < FIFO_SIZE then q + [v] else q
  }

  function PushAll(q: Queue, vs: seq<int>): Queue
    decreases vs
  {
    if vs == [] then q else PushAll(Push(q, vs[0]), vs[1..])
  }

  /** The byte taken out; an empty queue plays silence. */
  function Front(q: Queue): int { if q == [] then 0 else q[0] }

  function Rest(q: Queue): Queue { if q == [] then [] else q[1..] }

  /** What does not fit is dropped; nothing is dropped when everything fits. */
  lemma {:induction false} PushAllKeepsPrefix(q: Queue, vs: seq<int>)
    ensures var room := 32 - |q|;
            PushAll(q, vs) == q + if |vs| <= room then vs else vs[..room]
    decreases vs
  {
    if vs != [] {
      PushAllKeepsPrefix(Push(q, vs[0]), vs[1..]);
      if |q| < FIFO_SIZE {
        assert [vs[0]] + vs[1..] == vs;
        var room := FIFO_SIZE - |q|;
        assert |vs| > room ==> vs[..room] == [vs[0]] + vs[1..][..room - 1];
      }
    }
  }

  lemma {:induction false} PushAllConcat(q: Queue, xs: seq<int>, ys: seq<int>)
    ensures PushAll(q, xs + ys) == PushAll(PushAll(q, xs), ys)
    decreases xs
  {
    if xs == [] {
      assert xs + ys == ys;
    } else {
      assert (xs + ys)[1..] == xs[1..] + ys;
      PushAllConcat(Push(q, xs[0]), xs[1..], ys);
    }
  }

  // ----------------------------------------------------------- the ring buffer

  /** The `i`-th slot from position `pos` around the ring. */
  function Slot(pos: nat, i: nat): (s: nat)
    ensures s < FIFO_SIZE
  {
    (pos + i) % FIFO_SIZE
  }

  lemma SlotsDistinct(pos: nat, len: nat)
    requires pos < FIFO_SIZE && len < FIFO_SIZE
    ensures forall i :: 0 <= i < len ==> Slot(pos, i) != Slot(pos, len)
  {
  }

  lemma NextSlot(pos: nat, len: nat)
    ensures Slot(Slot(pos, len), 1) == Slot(pos, len + 1)
  {
  }

  lemma AfterRead(pos: nat)
    ensures forall i: nat :: Slot(Slot(pos, 1), i) == Slot(pos, i + 1)
  {
  }

  class Fifo {
    const data: array<int>
    var readPos: nat
    var writePos: nat
    var len: nat

    ghost predicate Valid()
      reads this
    {
      && data.Length == FIFO_SIZE
      && readPos < FIFO_SIZE && writePos < FIFO_SIZE && len <= FIFO_SIZE
      && writePos == Slot(readPos, len)
    }

    ghost function Contents(): (q: Queue)
      requires Valid()
      reads this, data
      ensures |q| == len
    {
      seq(len, i requires 0 <= i reads this, data requires Valid() => data[Slot(readPos, i)])
    }

    constructor ()
      ensures Valid() && fresh(data) && Contents() == []
    {
      data := new int[FIFO_SIZE](_ => 0);
      readPos, writePos, len := 0, 0, 0;
    }

    method Reset()
      requires Valid()
      modifies this
      ensures Valid() && Contents() == []
    {
      readPos, writePos, len := 0, 0, 0;
    }

    method Put(v: int)
      requires Valid() && len < FIFO_SIZE
      modifies this, data
      ensures Valid() && Contents() == Push(old(Contents()), v)
    {
      hide Slot;
      ghost var q := Contents();
      SlotsDistinct(readPos, len);
      NextSlot(readPos, len);
      data[writePos] := v;
      writePos := Slot(writePos, 1);
      len := len + 1;
      assert forall i :: 0 <= i < |q| ==> Contents()[i] == q[i];
    }

    /** Store two bytes; each is dropped when the buffer is full. */
    method Write(a: Byte, b: Byte)
      requires Valid()
      modifies this, data
      ensures Valid() && Contents() == PushAll(old(Contents()), [Signed(a), Signed(b)])
    {
      ghost var q := Contents();
      assert PushAll(q, [Signed(a), Signed(b)]) == Push(Push(q, Signed(a)), Signed(b)) by {
        PushAllConcat(q, [Signed(a)], [Signed(b)]);
        assert [Signed(a)] + [Signed(b)] == [Signed(a), Signed(b)];
      }
      if len < FIFO_SIZE {
        Put(Signed(a));
      }
      if len < FIFO_SIZE {
        Put(Signed(b));
      }
    }

    method Read() returns (v: int)
      requires Valid()
      modifies this
      ensures Valid() && v == Front(old(Contents())) && Contents() == Rest(old(Contents()))
    {
      if len == 0 {
        return 0;
      }
      hide Slot;
      ghost var q := Contents();
      v := data[readPos];
      AfterRead(readPos);
      readPos := Slot(readPos, 1);
      len := len - 1;
      assert forall i :: 0 <= i < len ==> Contents()[i] == q[i + 1];
    }
  }
}
