/** Accepting OUT transfers: the driver's two passes over the isochronous packets of a transfer. */
module ScoPacing {
  import opened Bytes
  import opened ScoOutSpec
  import opened ScoOut
  import opened ScoPacingSpec

  class OutEndpoint {
    const framer: OutFramer
    var nextFree: nat

    ghost predicate Valid()
      reads this, framer, framer.ring, framer.packet
    {
      framer.Valid()
    }

    ghost function Model(): Path
      reads this, framer, framer.ring, framer.packet
      requires Valid()
    {
      Path(framer.Model(), nextFree)
    }

    constructor ()
      ensures Valid() && fresh(framer) && fresh(framer.ring) && fresh(framer.packet)
      ensures Model() == Path(NEW, 0)
    {
      framer := new OutFramer();
      nextFree := 0;
    }

    method Schedule(now: nat, span: nat) returns (due: nat)
      modifies `nextFree
      ensures due == nextFree == ScoPacingSpec.Schedule(old(nextFree), now, span)
    {
      var start := if nextFree > now then nextFree else now;
      nextFree := start + span;
      due := nextFree;
    }

    /** Validates the packets and adds up the air time they stand for. */
    method Measure(maxPacket: nat, buffer: seq<byte>, packets: seq<Iso>)
      returns (span: nat, total: nat, errors: nat)
      ensures span == TotalSpan(maxPacket, buffer, packets)
      ensures total == TotalBytes(buffer, packets)
      ensures errors == Overruns(buffer, packets)
    {
      span, total, errors := 0, 0, 0;
      var left := packets;
      while left != []
        invariant span + TotalSpan(maxPacket, buffer, left) == TotalSpan(maxPacket, buffer, packets)
        invariant total + TotalBytes(buffer, left) == TotalBytes(buffer, packets)
        invariant errors + Overruns(buffer, left) == Overruns(buffer, packets)
        decreases |left|
      {
        var p := left[0];
        if p.offset > |buffer| || p.length > |buffer| - p.offset {
          errors := errors + 1;
          span := span + FRAME;
        } else {
          total := total + p.length;
          span := span + PacketSpan(maxPacket, p.length);
        }
        left := left[1..];
      }
    }

    method Accept(now: nat, maxPacket: nat, buffer: seq<byte>, packets: seq<Iso>)
      returns (due: nat, total: nat, errors: nat)
      requires Valid()
      modifies this, framer, framer.ring
      ensures Valid()
      ensures Model() == AcceptOut(old(Model()), now, maxPacket, buffer, packets)
      ensures due == nextFree && total == TotalBytes(buffer, packets) && errors == Overruns(buffer, packets)
    {
      var span;
      span, total, errors := Measure(maxPacket, buffer, packets);
      due := Schedule(now, span);
      var at: nat := due - span;
      var left := packets;
      ghost var goal := QueueAll(framer.Model(), at, maxPacket, buffer, packets);
      while left != []
        invariant Valid() && nextFree == due
        invariant QueueAll(framer.Model(), at, maxPacket, buffer, left) == goal
        decreases |left|
      {
        var p := left[0];
        if p.offset > |buffer| || p.length > |buffer| - p.offset {
          at := at + FRAME;
        } else {
          at := at + PacketSpan(maxPacket, p.length);
          framer.Push(at, buffer[p.offset..p.offset + p.length]);
        }
        left := left[1..];
      }
    }
  }
}
