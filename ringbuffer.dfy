/**
 * The byte ring buffer that holds received bytes (`struct ringbuffer rx` of the descriptor).
 * Its implementation library is not part of this model; it is modelled as a bounded FIFO of
 * unread bytes with the overwrite-the-oldest policy on a full buffer.
 */
module RingBuffers {
  import opened Common

  /** The FIFO after one put: the byte is appended; when full, the oldest unread byte is lost. */
  function FifoPut(q: seq<Byte>, capacity: nat, b: Byte): (r: seq<Byte>)
    requires 1 <= capacity && |q| <= capacity
    ensures |r| == Min(|q| + 1, capacity)
    ensures r == Newest(q + [b], capacity)
    ensures r[|r| - 1] == b
  {
    if |q| < capacity then q + [b] else q[1..] + [b]
  }

  /** The last n bytes of s (all of s when it is no longer than n). */
  function Newest(s: seq<Byte>, n: nat): (r: seq<Byte>)
    ensures |r| == Min(|s|, n)
  {
    if |s| <= n then s else s[|s| - n..]
  }

  /** Puts of the bytes bs, in order. */
  function PutAll(q: seq<Byte>, capacity: nat, bs: seq<Byte>): (r: seq<Byte>)
    requires 1 <= capacity && |q| <= capacity
    ensures |r| <= capacity
    decreases |bs|
  {
    if bs == [] then q else PutAll(FifoPut(q, capacity, bs[0]), capacity, bs[1..])
  }

  lemma NewestTwice(s: seq<Byte>, t: seq<Byte>, n: nat)
    ensures Newest(Newest(s, n) + t, n) == Newest(s + t, n)
  {
    if |s| > n {
      var s' := s[|s| - n..];
      var r1 := Newest(s' + t, n);
      var r2 := Newest(s + t, n);
      assert |r1| == |r2|;
      forall i | 0 <= i < |r1|
        ensures r1[i] == r2[i]
      {
        assert r1[i] == (s' + t)[|s' + t| - |r1| + i];
        assert r2[i] == (s + t)[|s + t| - |r2| + i];
      }
    }
  }

  /**
   * The FIFO after any sequence of puts holds the newest `capacity` bytes of everything
   * ever put into it, oldest first.
   */
  lemma {:induction false} PutAllKeepsNewest(q: seq<Byte>, capacity: nat, bs: seq<Byte>)
    requires 1 <= capacity && |q| <= capacity
    ensures PutAll(q, capacity, bs) == Newest(q + bs, capacity)
    decreases |bs|
  {
    if bs != [] {
      var q' := FifoPut(q, capacity, bs[0]);
      PutAllKeepsNewest(q', capacity, bs[1..]);
      NewestTwice(q + [bs[0]], bs[1..], capacity);
      assert q + [bs[0]] + bs[1..] == q + bs;
    }
  }

  /** Without overflow nothing is lost: `num` grows by one per put and the order is kept. */
  lemma PutAllWithinCapacity(q: seq<Byte>, capacity: nat, bs: seq<Byte>)
    requires 1 <= capacity && |q| + |bs| <= capacity
    ensures PutAll(q, capacity, bs) == q + bs
  {
    PutAllKeepsNewest(q, capacity, bs);
  }

  /** Putting capacity + k bytes into an empty buffer leaves exactly its last capacity bytes. */
  lemma PutAllOverflow(capacity: nat, bs: seq<Byte>)
    requires 1 <= capacity <= |bs|
    ensures PutAll([], capacity, bs) == bs[|bs| - capacity..]
    ensures |PutAll([], capacity, bs)| == capacity
  {
    PutAllKeepsNewest([], capacity, bs);
    assert [] + bs == bs;
  }

  /** A capacity-4 buffer given 0x41..0x45 holds 0x42..0x45. */
  lemma OverflowExample()
    ensures PutAll([], 4, [0x41, 0x42, 0x43, 0x44, 0x45]) == [0x42, 0x43, 0x44, 0x45]
  {
    PutAllOverflow(4, [0x41, 0x42, 0x43, 0x44, 0x45]);
  }

  /** The ring buffer object: its capacity and its unread bytes, oldest first. */
  class RingBuffer {
    var capacity: nat
    var contents: seq<Byte>

    ghost predicate Valid()
      reads this
    {
      |contents| <= capacity
    }

    /** A buffer that has not been bound to storage yet (zero-initialised). */
    constructor ()
      ensures Valid() && capacity == 0 && contents == []
    {
      capacity := 0;
      contents := [];
    }

    /** `ringbuffer_init`: bind storage of the given size; a zero size is rejected. */
    method Init(size: nat) returns (status: int)
      requires Valid()
      modifies this
      ensures Valid()
      ensures size == 0 ==> status == ERR_INVALID_ARG && capacity == old(capacity) && contents == old(contents)
      ensures size != 0 ==> status == ERR_NONE && capacity == size && contents == []
    {
      if size == 0 {
        return ERR_INVALID_ARG;
      }
      capacity := size;
      contents := [];
      status := ERR_NONE;
    }

    /** `ringbuffer_num`: the number of unread bytes. */
    function Num(): (n: nat)
      requires Valid()
      reads this
      ensures n == |contents| && n <= capacity
    {
      |contents|
    }

    /** `ringbuffer_put` */
    method Put(b: Byte)
      requires Valid() && capacity >= 1
      modifies this
      ensures Valid() && capacity == old(capacity)
      ensures contents == FifoPut(old(contents), capacity, b)
    {
      contents := FifoPut(contents, capacity, b);
    }

    /** `ringbuffer_get`: move the oldest unread byte into dst[i]; an empty buffer changes nothing. */
    method Get(dst: array<Byte>, i: nat) returns (status: int)
      requires Valid() && i < dst.Length
      modifies this, dst
      ensures Valid() && capacity == old(capacity)
      ensures old(contents) == [] ==> status == ERR_NOT_FOUND && contents == [] && dst[..] == old(dst[..])
      ensures old(contents) != [] ==>
        status == ERR_NONE && contents == old(contents)[1..] && dst[..] == old(dst[..])[i := old(contents)[0]]
    {
      if contents == [] {
        return ERR_NOT_FOUND;
      }
      dst[i] := contents[0];
      contents := contents[1..];
      status := ERR_NONE;
    }

    /** `ringbuffer_flush`: discard every unread byte. */
    method Flush() returns (status: int)
      requires Valid()
      modifies this
      ensures Valid() && capacity == old(capacity) && contents == []
      ensures status == ERR_NONE
    {
      contents := [];
      status := ERR_NONE;
    }
  }
}
