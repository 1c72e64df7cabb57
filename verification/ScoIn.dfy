/** The IN framer as the driver runs it: a byte ring and one frame buffer, updated in place. */
module ScoIn {
  import opened Bytes
  import opened ScoPacket
  import opened Ring
  import opened ScoInSpec

  class InFramer {
    const fifo: array<byte>
    const frame: array<byte>
    var fifoHead: nat
    var fifoCount: nat
    var handleField: u16
    var haveHandle: bool
    var frameLength: nat
    var frameOffset: nat
    var sourcePackets: nat
    var sourceRejected: nat
    var framedPackets: nat
    var droppedBytes: nat
    var lastSourceLength: nat

    ghost predicate Valid()
      reads this
    {
      && fifo.Length == FIFO_BYTES && frame.Length == MAX_PACKET
      && fifoHead < FIFO_BYTES && fifoCount < 510
      && frameOffset <= frameLength <= MAX_PACKET
      && (fifoCount > 0 ==> haveHandle)
    }

    ghost function Held(): seq<byte>
      reads this, fifo
      requires Valid()
    {
      Window(fifo[..], fifoHead, fifoCount)
    }

    ghost function Model(): In
      reads this, fifo, frame
      requires Valid()
    {
      In(Held(), haveHandle, handleField, frame[..frameLength], frameOffset,
         sourcePackets, sourceRejected, framedPackets, droppedBytes, lastSourceLength)
    }

    constructor ()
      ensures Valid() && fresh(fifo) && fresh(frame)
      ensures Model() == EMPTY
    {
      fifo := new byte[FIFO_BYTES](i => 0);
      frame := new byte[MAX_PACKET](i => 0);
      fifoHead, fifoCount, handleField, haveHandle := 0, 0, 0, false;
      frameLength, frameOffset := 0, 0;
      sourcePackets, sourceRejected, framedPackets, droppedBytes, lastSourceLength := 0, 0, 0, 0, 0;
    }

    method Reset()
      requires Valid()
      modifies this
      ensures Valid()
      ensures Model() == EMPTY
    {
      fifoHead, fifoCount, handleField, haveHandle := 0, 0, 0, false;
      frameLength, frameOffset := 0, 0;
      sourcePackets, sourceRejected, framedPackets, droppedBytes, lastSourceLength := 0, 0, 0, 0, 0;
      assert Held() == [] && frame[..frameLength] == [];
    }

    /** Appends the payload byte by byte; there is always room for it. */
    method Store(payload: seq<byte>)
      requires fifo.Length == FIFO_BYTES && fifoHead < FIFO_BYTES && fifoCount + |payload| <= FIFO_BYTES
      modifies `fifoCount, fifo
      ensures fifoCount == old(fifoCount) + |payload|
      ensures Window(fifo[..], fifoHead, fifoCount)
              == old(Window(fifo[..], fifoHead, fifoCount)) + payload
    {
      ghost var before := Window(fifo[..], fifoHead, fifoCount);
      for i := 0 to |payload|
        invariant fifoCount == old(fifoCount) + i
        invariant Window(fifo[..], fifoHead, fifoCount) == before + payload[..i]
      {
        ghost var was := fifo[..];
        var at := (fifoHead + fifoCount) % FIFO_BYTES;
        assert at == Slot(FIFO_BYTES, fifoHead, fifoCount);
        WindowPush(was, fifoHead, fifoCount, payload[i]);
        fifo[at] := payload[i];
        fifoCount := fifoCount + 1;
        assert fifo[..] == was[at := payload[i]];
        assert payload[..i + 1] == payload[..i] + [payload[i]];
      }
      assert payload[..|payload|] == payload;
    }

    /** Takes one controller packet; the voice of another link is discarded first. */
    method Accept(packet: seq<byte>)
      requires Valid() && fifoCount < 255
      modifies this, fifo
      ensures Valid()
      ensures Model() == ScoInSpec.Accept(old(Model()), packet).next
    {
      if |packet| < HEADER || |packet| != HEADER + packet[2] {
        sourceRejected := sourceRejected + 1;
        return;
      }
      var field := Le16(packet[0], packet[1]);
      if haveHandle && HandlePart(field) != HandlePart(handleField) {
        droppedBytes := droppedBytes + fifoCount;
        fifoHead := 0;
        fifoCount := 0;
        assert Held() == [];
      }
      handleField := field;
      haveHandle := true;
      sourcePackets := sourcePackets + 1;
      lastSourceLength := packet[2];
      ghost var kept := Held();
      Store(packet[HEADER..]);
      assert Held() == kept + packet[HEADER..];
    }

    /** Pulls controller packets from source until one payload waits or none is left. */
    method Pull(payload: nat, source: seq<seq<byte>>) returns (rest: seq<seq<byte>>)
      requires Valid() && payload <= 255
      modifies this, fifo
      ensures Valid()
      ensures var g := Gather(old(Model()), payload, source);
              Model() == g.next && rest == g.rest
    {
      rest := source;
      while fifoCount < payload && rest != []
        invariant Valid()
        invariant var g := Gather(Model(), payload, rest);
                  var all := Gather(old(Model()), payload, source);
                  g.next == all.next && g.rest == all.rest
        decreases |rest|
      {
        Accept(rest[0]);
        rest := rest[1..];
      }
    }

    /** Takes the oldest byte out of the ring. */
    method TakeByte() returns (b: byte)
      requires Valid() && fifoCount > 0
      modifies `fifoHead, `fifoCount
      ensures Valid() && fifoCount == old(fifoCount) - 1
      ensures b == old(Held())[0] && Held() == old(Held())[1..]
    {
      WindowPop(fifo[..], fifoHead, fifoCount);
      assert Held()[0] == fifo[fifoHead];
      b := fifo[fifoHead];
      fifoHead := (fifoHead + 1) % FIFO_BYTES;
      fifoCount := fifoCount - 1;
    }

    /** Moves one payload out of the ring, oldest byte first. */
    method Drain(payload: nat)
      requires Valid() && payload <= fifoCount && payload <= 255
      modifies `fifoHead, `fifoCount, frame
      ensures Valid() && fifoCount == old(fifoCount) - payload
      ensures Held() == old(Held())[payload..]
      ensures frame[..HEADER] == old(frame[..HEADER])
      ensures frame[HEADER..HEADER + payload] == old(Held())[..payload]
    {
      ghost var held, header := Held(), frame[..HEADER];
      for i := 0 to payload
        invariant Valid() && fifoCount == old(fifoCount) - i
        invariant Held() == held[i..]
        invariant frame[..HEADER] == header
        invariant frame[HEADER..HEADER + i] == held[..i]
      {
        ghost var done := frame[HEADER..HEADER + i];
        var b := TakeByte();
        frame[HEADER + i] := b;
        assert frame[HEADER..HEADER + i + 1] == done + [b];
        assert held[..i + 1] == held[..i] + [held[i]];
      }
    }

    method StartFrame(payload: nat)
      requires Valid() && 0 < payload <= fifoCount && payload <= 255
      requires frameOffset == 0
      modifies this, frame
      ensures Valid()
      ensures Model() == NextFrame(old(Model()), payload).next
    {
      frame[0] := handleField % 0x100;
      frame[1] := handleField / 0x100;
      frame[2] := payload;
      ghost var header := [handleField % 0x100, handleField / 0x100, payload];
      assert frame[..HEADER] == header;
      Drain(payload);
      frameLength := HEADER + payload;
      framedPackets := framedPackets + 1;
      assert frame[..frameLength] == frame[..HEADER] + frame[HEADER..HEADER + payload];
      assert frame[..frameLength] == FrameBytes(handleField, old(Held())[..payload]);
    }

    /** Between packets: pull voice and, when a whole payload waits, start the next packet. */
    method Refill(payload: nat, source: seq<seq<byte>>) returns (rest: seq<seq<byte>>)
      requires Valid() && 0 < payload <= 255 && frameOffset == frameLength == 0
      modifies this, fifo, frame
      ensures Valid()
      ensures var g := Gather(old(Model()), payload, source);
              Model() == NextFrame(g.next, payload).next && rest == g.rest
    {
      rest := Pull(payload, source);
      if fifoCount >= payload {
        StartFrame(payload);
      }
    }

    method CutOut(maxPacket: nat, capacity: nat) returns (data: seq<byte>)
      requires Valid()
      modifies `frameOffset
      ensures Valid()
      ensures var f := Cut(old(Model()), maxPacket, capacity, [], []);
              Model() == f.next && data == f.data
    {
      var n := Min(Min(frameLength - frameOffset, maxPacket), capacity);
      data := frame[frameOffset..frameOffset + n];
      assert data == frame[..frameLength][frameOffset..frameOffset + n];
      frameOffset := frameOffset + n;
    }

    /** Fills one isochronous packet of at most capacity bytes; empty when nothing whole is waiting. */
    method Fill(maxPacket: nat, capacity: nat, source: seq<seq<byte>>)
      returns (data: seq<byte>, rest: seq<seq<byte>>)
      requires Valid()
      modifies this, fifo, frame
      ensures Valid()
      ensures var f := ScoInSpec.Fill(old(Model()), maxPacket, capacity, source);
              Model() == f.next && data == f.data && rest == f.rest
    {
      rest := source;
      if frameOffset >= frameLength {
        var payload := PayloadSize(maxPacket);
        frameLength := 0;
        frameOffset := 0;
        assert frame[..0] == [];
        if payload == 0 {
          return [], rest;
        }
        rest := Refill(payload, source);
      }
      data := CutOut(maxPacket, capacity);
    }
  }
}
