/** The circular packet buffer behind each of the bridge's queues, updated in place. */
module PacketRing {
  import opened Bytes
  import opened Ring

  class PacketQueue {
    const slots: array<seq<byte>>
    var head: nat
    var tail: nat
    var count: nat

    ghost predicate Valid()
      reads this
    {
      && 0 < slots.Length && head < slots.Length && count <= slots.Length
      && tail == Slot(slots.Length, head, count)
    }

    ghost function Contents(): (q: seq<seq<byte>>)
      reads this, slots
      requires Valid()
      ensures |q| == count
    {
      Window(slots[..], head, count)
    }

    constructor (depth: nat)
      requires depth > 0
      ensures Valid() && fresh(slots) && slots.Length == depth
      ensures Contents() == []
    {
      slots := new seq<byte>[depth](i => []);
      head, tail, count := 0, 0, 0;
    }

    method Clear()
      requires Valid()
      modifies this
      ensures Valid() && Contents() == []
    {
      head, tail, count := 0, 0, 0;
    }

    method Peek() returns (p: seq<byte>)
      requires Valid() && count > 0
      ensures p == Contents()[0]
    {
      p := slots[head];
    }

    method Put(p: seq<byte>)
      requires Valid() && count < slots.Length
      modifies this, slots
      ensures Valid() && Contents() == old(Contents()) + [p]
    {
      WindowPush(slots[..], head, count, p);
      SlotIsRemainder(slots.Length, tail, 1);
      SlotNext(slots.Length, head, count);
      slots[tail] := p;
      assert slots[..] == old(slots[..])[tail := p];
      tail := (tail + 1) % slots.Length;
      count := count + 1;
    }

    method DropOldest()
      requires Valid() && count > 0
      modifies this
      ensures Valid() && Contents() == old(Contents())[1..]
    {
      WindowPop(slots[..], head, count);
      SlotIsRemainder(slots.Length, head, 1);
      head := (head + 1) % slots.Length;
      count := count - 1;
    }
  }
}
