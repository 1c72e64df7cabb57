/** The OUT framer as the driver runs it: a fixed ring, one reassembly buffer, updated in place. */
module ScoOut {
  import opened Bytes
  import opened ScoPacket
  import opened Ring
  import opened ScoOutSpec

  class OutFramer {
    const ring: array<Chunk>
    const packet: array<byte>
    var head: nat
    var count: nat
    var have: nat
    var resync: bool
    var lastHandle: nat
    var emitted: nat
    var ringDrops: nat
    var resyncSkips: nat

    ghost predicate Valid()
      reads this, ring, packet
    {
      && ring.Length == SLOTS && packet.Length == MAX_PACKET
      && head < SLOTS && count <= SLOTS
      && have <= MAX_PACKET && Partial(packet[..have])
      && (resync ==> have == 0)
    }

    ghost function Queue(): seq<Chunk>
      reads this, ring
      requires ring.Length == SLOTS && head < SLOTS && count <= SLOTS
    {
      Window(ring[..], head, count)
    }

    ghost function Progress(): Core
      reads this, packet
      requires have <= packet.Length
    {
      Core(packet[..have], resync, lastHandle)
    }

    ghost function Model(): Out
      reads this, ring, packet
      requires Valid()
    {
      Out(Queue(), Progress(), emitted, ringDrops, resyncSkips)
    }

    constructor ()
      ensures Valid() && fresh(ring) && fresh(packet)
      ensures Model() == NEW
    {
      ring := new Chunk[SLOTS](i => Chunk(0, []));
      packet := new byte[MAX_PACKET](i => 0);
      head, count, have, resync, lastHandle := 0, 0, 0, false, NO_HANDLE;
      emitted, ringDrops, resyncSkips := 0, 0, 0;
    }

    method Reset()
      requires Valid()
      modifies this
      ensures Valid()
      ensures Model() == NEW
    {
      head, count, have, resync, lastHandle := 0, 0, 0, false, NO_HANDLE;
      emitted, ringDrops, resyncSkips := 0, 0, 0;
    }

    /** A full ring gives up its head; what was reassembled so far has a hole and is discarded. */
    method DropOldest()
      requires Valid() && count == SLOTS
      modifies this
      ensures Valid() && count == SLOTS - 1
      ensures Queue() == old(Queue())[1..]
      ensures have == 0 && resync && lastHandle == old(lastHandle) && emitted == old(emitted)
      ensures ringDrops == old(ringDrops) + 1 && resyncSkips == old(resyncSkips)
    {
      WindowPop(ring[..], head, count);
      head := (head + 1) % SLOTS;
      count := count - 1;
      ringDrops := ringDrops + 1;
      have := 0;
      resync := true;
    }

    method Append(c: Chunk)
      requires Valid() && count < SLOTS
      modifies `count, ring
      ensures Valid()
      ensures Queue() == old(Queue()) + [c]
    {
      var slot := (head + count) % SLOTS;
      WindowPush(ring[..], head, count, c);
      assert slot == Slot(SLOTS, head, count);
      ring[slot] := c;
      count := count + 1;
      assert ring[..] == old(ring[..])[slot := c];
    }

    /** Queues one frame; a full ring first gives up its oldest one. */
    method PushFrame(due: nat, frame: seq<byte>)
      requires Valid()
      modifies this, ring
      ensures Valid()
      ensures Model() == PushChunk(old(Model()), Chunk(due, frame))
    {
      if count == SLOTS {
        DropOldest();
      }
      Append(Chunk(due, frame));
    }

    method Push(due: nat, data: seq<byte>)
      requires Valid()
      modifies this, ring
      ensures Valid()
      ensures Model() == ScoOutSpec.Push(old(Model()), due, data)
    {
      var left := data;
      while left != []
        invariant Valid()
        invariant PushFrames(Model(), due, Frames(left)) == ScoOutSpec.Push(old(Model()), due, data)
        decreases |left|
      {
        var n := Min(MAX_ISO, |left|);
        assert Frames(left)[1..] == Frames(left[n..]);
        PushFrame(due, left[..n]);
        left := left[n..];
      }
    }

    method TopUp(piece: seq<byte>)
      requires have <= MAX_PACKET == packet.Length && have + |piece| <= MAX_PACKET
      modifies `have, packet
      ensures have == old(have) + |piece| && packet[..have] == old(packet[..have]) + piece
    {
      forall k | 0 <= k < |piece| {
        packet[have + k] := piece[k];
      }
      have := have + |piece|;
    }

    /** The bytes of the packet under reassembly reached its declared length. */
    method Finish() returns (p: seq<byte>)
      requires have <= MAX_PACKET == packet.Length && WellFormed(packet[..have])
      modifies `have, `lastHandle, `emitted
      ensures p == old(packet[..have]) && have == 0
      ensures lastHandle == HandleOf(p) && emitted == old(emitted) + 1
    {
      p := packet[..have];
      lastHandle := Handle12(packet[0], packet[1]);
      emitted := emitted + 1;
      have := 0;
    }

    /** Copies as many bytes as the packet under reassembly still needs; done holds it if that was all. */
    method TakePiece(left: seq<byte>) returns (later: seq<byte>, done: seq<seq<byte>>)
      requires Valid() && left != []
      modifies `have, `lastHandle, `emitted, packet
      ensures have <= MAX_PACKET && Partial(packet[..have])
      ensures |later| < |left| && |done| <= 1 && (done != [] ==> WellFormed(done[0]))
      ensures emitted == old(emitted) + |done|
      ensures lastHandle == LastHandle(old(lastHandle), done)
      ensures var r := Absorb(packet[..have], later);
              Absorb(old(packet[..have]), left) == Split(r.rest, done + r.packets)
    {
      ghost var part := packet[..have];
      var need := if have < HEADER then HEADER else HEADER + packet[2];
      var take := Min(need - have, |left|);
      var piece := left[..take];
      later := left[take..];
      assert left == piece + later;
      AbsorbAppend(part, piece, later);
      TopUp(piece);
      if have >= HEADER && have == HEADER + packet[2] {
        AbsorbFinishes(part, piece);
        var p := Finish();
        done := [p];
      } else {
        AbsorbKeeps(part, piece);
        done := [];
      }
    }

    /** Reassembles one frame's bytes; sent lists the packets they complete. */
    method Reassemble(data: seq<byte>) returns (sent: seq<seq<byte>>)
      requires Valid() && !resync
      modifies `have, `lastHandle, `emitted, packet
      ensures have <= MAX_PACKET && Partial(packet[..have])
      ensures emitted == old(emitted) + |sent|
      ensures Split(packet[..have], sent) == Absorb(old(packet[..have]), data)
      ensures lastHandle == LastHandle(old(lastHandle), sent)
    {
      sent := [];
      var left := data;
      while left != []
        invariant Valid()
        invariant emitted == old(emitted) + |sent|
        invariant var r := Absorb(packet[..have], left);
                  Split(r.rest, sent + r.packets) == Absorb(old(packet[..have]), data)
        invariant lastHandle == LastHandle(old(lastHandle), sent)
        decreases |left|
      {
        var later, done := TakePiece(left);
        Assoc(sent, done, Absorb(packet[..have], later).packets);
        assert done == [] ==> sent + done == sent;
        assert done != [] ==> (sent + done)[|sent + done| - 1] == done[0];
        left := later;
        sent := sent + done;
      }
    }

    /** One frame's bytes reach reassembly, or are skipped while it waits for a packet start. */
    method TakeFrame(data: seq<byte>) returns (sent: seq<seq<byte>>, skipped: bool)
      requires Valid()
      modifies `have, `resync, `lastHandle, `emitted, packet
      ensures Valid()
      ensures Taken(Progress(), sent, skipped) == Take(old(Progress()), data)
      ensures emitted == old(emitted) + |sent|
    {
      skipped := resync && lastHandle != NO_HANDLE
                 && (|data| < 2 || Handle12(data[0], data[1]) != lastHandle);
      if skipped {
        sent := [];
      } else {
        resync := false;
        sent := Reassemble(data);
      }
    }

    method PopHead()
      requires Valid() && count > 0
      modifies `head, `count
      ensures Valid() && count == old(count) - 1
      ensures Queue() == old(Queue())[1..]
    {
      WindowPop(ring[..], head, count);
      head := (head + 1) % SLOTS;
      count := count - 1;
    }

    method ReleaseHead() returns (sent: seq<seq<byte>>)
      requires Valid() && count > 0
      modifies this, packet
      ensures Valid() && count == old(count) - 1
      ensures Released(Model(), sent) == ReleaseOne(old(Model()))
    {
      var data := ring[head].data;
      assert data == Queue()[0].data;
      var skipped;
      sent, skipped := TakeFrame(data);
      if skipped {
        resyncSkips := resyncSkips + 1;
      }
      PopHead();
    }

    /** Releases every frame due by now; sent lists the packets handed to the controller. */
    method Release(now: nat) returns (sent: seq<seq<byte>>)
      requires Valid()
      modifies this, packet
      ensures Valid()
      ensures Released(Model(), sent) == ScoOutSpec.Release(old(Model()), now)
    {
      sent := [];
      while count > 0 && ring[head].due <= now
        invariant Valid()
        invariant var r := ScoOutSpec.Release(Model(), now);
                  Released(r.out, sent + r.sent) == ScoOutSpec.Release(old(Model()), now)
        decreases count
      {
        assert Queue()[0] == ring[head];
        var packets := ReleaseHead();
        Assoc(sent, packets, ScoOutSpec.Release(Model(), now).sent);
        sent := sent + packets;
      }
      assert count > 0 ==> Queue()[0] == ring[head];
    }
  }
}
