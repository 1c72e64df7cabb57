/**
 The three controller events that move ACL credits, written out byte by byte (Bluetooth Core Specification
 Vol 4 Part E, sections 7.4.5, 7.7.19 and 7.7.5), and that the bridge reads them as what they say
 (src/common/hci_bridge.c).
 */
module CreditEvents {
  import opened Bytes
  import opened CreditSpec
  import opened BridgeSpec
  import opened BridgeRuns

  /** The successful answer to Read Buffer Size. */
  function BufferSizeReply(allowed: byte, aclLength: u16, scoLength: byte, aclCount: u16, scoCount: u16): (p: Packet)
    ensures |p| == 13
  {
    [0x0E, 11, allowed, 0x05, 0x10, 0x00] + Put16(aclLength) + [scoLength] + Put16(aclCount) + Put16(scoCount)
  }

  /** Packets completed on a link; the upper four bits of the handle field are not part of the handle. */
  datatype Done = Done(field: u16, count: u16)

  function DoneBytes(done: seq<Done>): (b: seq<byte>)
    ensures |b| == 4 * |done|
  {
    if done == [] then [] else Put16(done[0].field) + Put16(done[0].count) + DoneBytes(done[1..])
  }

  /** Number Of Completed Packets. */
  function CompletedPackets(done: seq<Done>): (p: Packet)
    requires |done| <= 63
    ensures |p| == 3 + 4 * |done|
  {
    [0x13, 1 + 4 * |done|, |done|] + DoneBytes(done)
  }

  /** Disconnection Complete. */
  function Disconnection(status: byte, field: u16, reason: byte): Packet {
    [0x05, 4, status] + Put16(field) + [reason]
  }

  lemma BufferCountIsRead(allowed: byte, aclLength: u16, scoLength: byte, aclCount: u16, scoCount: u16)
    ensures var p := BufferSizeReply(allowed, aclLength, scoLength, aclCount, scoCount);
            FramedEvent(p) && Reports(p) == [Learned(aclCount)]
  {
  }

  lemma {:induction false} DoneAt(done: seq<Done>, i: nat)
    requires i < |done|
    ensures DoneBytes(done)[4 * i..4 * i + 4] == Put16(done[i].field) + Put16(done[i].count)
  {
    if i > 0 {
      DoneAt(done[1..], i - 1);
      assert DoneBytes(done)[4 * i..4 * i + 4] == DoneBytes(done[1..])[4 * (i - 1)..4 * (i - 1) + 4];
    }
  }

  lemma CompletionIsRead(done: seq<Done>, i: nat)
    requires i < |done| <= 63
    ensures Completion(CompletedPackets(done), i) == Completed(done[i].field % 0x1000, done[i].count)
  {
    var p, b := CompletedPackets(done), DoneBytes(done);
    DoneAt(done, i);
    var four := b[4 * i..4 * i + 4];
    assert four[0] == p[3 + 4 * i] && four[1] == p[4 + 4 * i] && four[2] == p[5 + 4 * i] && four[3] == p[6 + 4 * i];
  }

  /** Every completion of the list, in order, each with its own handle and count. */
  lemma CompletionsAreRead(done: seq<Done>)
    requires |done| <= 63
    ensures var p := CompletedPackets(done);
            && FramedEvent(p) && |Reports(p)| == |done|
            && forall i :: 0 <= i < |done| ==> Reports(p)[i] == Completed(done[i].field % 0x1000, done[i].count)
  {
    forall i | 0 <= i < |done|
      ensures Completion(CompletedPackets(done), i) == Completed(done[i].field % 0x1000, done[i].count)
    {
      CompletionIsRead(done, i);
    }
  }

  lemma DisconnectionIsRead(status: byte, field: u16, reason: byte)
    ensures var p := Disconnection(status, field, reason);
            FramedEvent(p) && Reports(p) == if status == 0 then [Disconnected(field % 0x1000)] else []
  {
  }

  /** No other event says anything about credits: other codes and opcodes, failures, short or cut lists. */
  lemma OthersAreSilent(p: Packet)
    requires FramedEvent(p) && Reports(p) != []
    ensures || (p[0] == 0x0E && |p| >= 13 && p[3] == 0x05 && p[4] == 0x10 && p[5] == 0)
            || (p[0] == 0x13 && |p| >= 3 + 4 * (p[2] as int) && p[2] > 0)
            || (p[0] == 0x05 && |p| >= 6 && p[2] == 0)
  {
  }

  /** A list whose announced length goes beyond the event is not read at all. */
  lemma CutListIsSilent(p: Packet)
    requires FramedEvent(p) && p[0] == 0x13
    ensures |p| < 3 || |p| < 3 + 4 * (p[2] as int) ==> Reports(p) == []
  {
  }

  /**
   The bridge's pool moves by exactly what the events say. On a bridge fed one of the three events, ready
   or not and whether or not the host sees the event, the credit steps are those written in it.
   */
  lemma EventsMoveCredits(b: Bridge, ports: Ports, o: Op)
    requires o.OnEvent? && FramedEvent(o.p) && o.p[0] != 0xFF
    ensures Runs(b.pool, Reports(o.p)) && Perform(b, ports, o).next.pool == Run(b.pool, Reports(o.p))
  {
    assert CreditSteps(b, ports, o) == Reports(o.p);
    OpCredits(b, ports, o);
  }
}
