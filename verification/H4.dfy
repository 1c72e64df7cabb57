/** The H4 codec as the driver runs it: one fixed buffer, one byte at a time, updated in place. */
module H4 {
  import opened Bytes
  import opened H4Spec

  datatype State = StateIdle | StateHeader | StatePayload

  class H4Decoder {
    var state: State
    var currentType: byte
    var headerLength: nat
    var payloadLength: nat
    var bufferLength: nat
    const buffer: array<byte>
    var bytesConsumed: nat
    var commandsEmitted: nat
    var aclPacketsEmitted: nat
    var scoPacketsEmitted: nat
    var eventsEmitted: nat
    var desynchronised: nat
    var oversizedRejections: nat

    ghost function Held(): Progress
      reads this, buffer
      requires bufferLength <= buffer.Length
    {
      match state
      case StateIdle => Idle
      case StateHeader => Header(currentType, buffer[..bufferLength])
      case StatePayload => Payload(currentType, buffer[..bufferLength])
    }

    ghost predicate Valid()
      reads this, buffer
    {
      && buffer.Length == H4Spec.MAX_PACKET && bufferLength <= buffer.Length
      && (state == StateIdle ==> bufferLength == 0)
      && (state != StateIdle ==> headerLength == HeaderLength(currentType))
      && Sound(Held())
      && (state == StatePayload ==> payloadLength == Declared(currentType, buffer[..bufferLength]))
    }

    ghost function Counters(): Tally
      reads this
    {
      Tally(bytesConsumed, commandsEmitted, aclPacketsEmitted, scoPacketsEmitted, eventsEmitted,
            desynchronised, oversizedRejections)
    }

    constructor ()
      ensures Valid() && fresh(buffer)
      ensures Held() == Idle && Counters() == ZERO
    {
      buffer := new byte[H4Spec.MAX_PACKET](i => 0);
      state, currentType, headerLength, payloadLength, bufferLength := StateIdle, 0, 0, 0, 0;
      bytesConsumed, commandsEmitted, aclPacketsEmitted, scoPacketsEmitted := 0, 0, 0, 0;
      eventsEmitted, desynchronised, oversizedRejections := 0, 0, 0;
    }

    /** Drops the packet under way; the counters stay. */
    method Reset()
      requires Valid()
      modifies this
      ensures Valid() && Held() == Idle && Counters() == old(Counters())
    {
      state, currentType, headerLength, payloadLength, bufferLength := StateIdle, 0, 0, 0, 0;
    }

    /** Counts one packet and hands it over. */
    method Emit() returns (item: Item)
      requires buffer.Length == H4Spec.MAX_PACKET && bufferLength <= buffer.Length
      modifies this
      ensures item == Emitted(old(currentType), old(buffer[..bufferLength]))
      ensures Counters() == Note(old(Counters()), item)
      ensures state == StateIdle && bufferLength == 0
    {
      if currentType == COMMAND {
        commandsEmitted := commandsEmitted + 1;
      } else if currentType == ACL {
        aclPacketsEmitted := aclPacketsEmitted + 1;
      } else if currentType == SCO {
        scoPacketsEmitted := scoPacketsEmitted + 1;
      } else if currentType == EVENT {
        eventsEmitted := eventsEmitted + 1;
      }
      item := Emitted(currentType, buffer[..bufferLength]);
      state, currentType, headerLength, payloadLength, bufferLength := StateIdle, 0, 0, 0, 0;
    }

    method Store(b: byte)
      requires bufferLength < buffer.Length
      modifies `bufferLength, buffer
      ensures bufferLength == old(bufferLength) + 1
      ensures buffer[..bufferLength] == old(buffer[..bufferLength]) + [b]
    {
      buffer[bufferLength] := b;
      bufferLength := bufferLength + 1;
    }

    method StartOrSkip(b: byte, claim: bool) returns (items: seq<Item>)
      requires Valid() && state == StateIdle
      modifies this
      ensures Valid()
      ensures Fed(Held(), items) == Feed(Idle, Rx(b, claim))
      ensures Counters() == NoteAll(old(Counters()), items)
    {
      items := [];
      var length := HeaderLength(b);
      if length == 0 {
        if claim {
          items := [Claimed(b)];
        } else {
          desynchronised := desynchronised + 1;
          items := [Discarded(b)];
        }
      } else {
        currentType, headerLength, payloadLength, bufferLength := b, length, 0, 0;
        state := StateHeader;
      }
    }

    /** The header is complete: refuse it, emit it as a whole packet, or go on to its payload. */
    method FinishHeader() returns (items: seq<Item>)
      requires buffer.Length == H4Spec.MAX_PACKET && bufferLength <= buffer.Length
      requires state == StateHeader && IsType(currentType)
      requires bufferLength == headerLength == HeaderLength(currentType)
      modifies this
      ensures Valid()
      ensures Fed(Held(), items) == Judge(old(currentType), old(buffer[..bufferLength]))
      ensures Counters() == NoteAll(old(Counters()), items)
    {
      var declared := Declared(currentType, buffer[..bufferLength]);
      items := [];
      if declared > MaxPayload(currentType) {
        items := [Rejected(currentType, buffer[..bufferLength])];
        oversizedRejections := oversizedRejections + 1;
        desynchronised := desynchronised + 1 + bufferLength;
        state, currentType, headerLength, payloadLength, bufferLength := StateIdle, 0, 0, 0, 0;
      } else {
        payloadLength := declared;
        if declared == 0 {
          var item := Emit();
          items := [item];
        } else {
          state := StatePayload;
        }
      }
    }

    method FeedByte(b: byte, claim: bool) returns (items: seq<Item>)
      requires Valid()
      modifies this, buffer
      ensures Valid()
      ensures Fed(Held(), items) == Feed(old(Held()), Rx(b, claim))
      ensures Counters() == NoteAll(old(Counters()), items)
    {
      items := [];
      match state
      case StateIdle =>
        items := StartOrSkip(b, claim);
      case StateHeader =>
        Store(b);
        if bufferLength == headerLength {
          items := FinishHeader();
        }
      case StatePayload =>
        Store(b);
        if bufferLength == headerLength + payloadLength {
          var item := Emit();
          items := [item];
        }
    }

    method Consume(r: Rx) returns (items: seq<Item>)
      requires Valid()
      modifies this, buffer
      ensures Valid()
      ensures Fed(Held(), items) == Feed(old(Held()), r)
      ensures Counters() == NoteAll(old(Counters()).(consumed := old(bytesConsumed) + 1), items)
    {
      bytesConsumed := bytesConsumed + 1;
      items := FeedByte(r.b, r.claim);
    }

    /** Consumes one chunk; items lists, in order, what the callbacks saw and what was thrown away. */
    method FeedEx(data: seq<Rx>) returns (items: seq<Item>)
      requires Valid()
      modifies this, buffer
      ensures Valid()
      ensures Fed(Held(), items) == FeedAll(old(Held()), data)
      ensures Counters() == NoteAll(old(Counters()).(consumed := old(bytesConsumed) + |data|), items)
    {
      items := [];
      ghost var p, t := Held(), Counters();
      assert data[..0] == [];
      for i := 0 to |data|
        invariant Valid()
        invariant Fed(Held(), items) == FeedAll(p, data[..i])
        invariant Counters() == NoteAll(t.(consumed := t.consumed + i), items)
      {
        var more := Consume(data[i]);
        StepCounts(t.(consumed := t.consumed + i), items, more);
        FeedSnoc(p, data, i);
        items := items + more;
      }
      assert data[..|data|] == data;
    }
  }

  lemma FeedOne(p: Progress, r: Rx)
    requires Sound(p)
    ensures FeedAll(p, [r]) == Feed(p, r)
  {
  }

  lemma FeedSnoc(p: Progress, data: seq<Rx>, i: nat)
    requires Sound(p) && i < |data|
    ensures var f := FeedAll(p, data[..i]);
            var g := Feed(f.next, data[i]);
            FeedAll(p, data[..i + 1]) == Fed(g.next, f.items + g.items)
  {
    assert data[..i + 1] == data[..i] + [data[i]];
    FeedAppend(p, data[..i], [data[i]]);
    FeedOne(FeedAll(p, data[..i]).next, data[i]);
  }

  lemma StepCounts(t: Tally, items: seq<Item>, more: seq<Item>)
    ensures NoteAll(t.(consumed := t.consumed + 1), items + more)
            == NoteAll(NoteAll(t, items).(consumed := NoteAll(t, items).consumed + 1), more)
  {
    ConsumedApart(t, items);
    NoteAllAppend(t.(consumed := t.consumed + 1), items, more);
  }

  /** Counting items and counting bytes do not disturb each other. */
  lemma {:induction false} ConsumedApart(t: Tally, items: seq<Item>)
    ensures var u := NoteAll(t, items);
            NoteAll(t.(consumed := t.consumed + 1), items) == u.(consumed := u.consumed + 1)
    decreases |items|
  {
    if items != [] {
      ConsumedApart(Note(t, items[0]), items[1..]);
    }
  }

  /** Writes the type byte and the packet, or refuses; a legal packet decodes back to itself. */
  method EncodePacket(kind: byte, packet: seq<byte>, out: array?<byte>, capacity: nat) returns (n: nat)
    requires out != null ==> capacity <= out.Length
    modifies out
    ensures n == 0 <==> out == null || capacity < 1 + |packet| || !IsType(kind)
    ensures n > 0 ==> n == 1 + |packet| && out[..n] == Encode(kind, packet)
    ensures out != null ==> out[n..] == old(out[n..])
  {
    if out == null || capacity < 1 + |packet| {
      return 0;
    }
    if kind != COMMAND && kind != ACL && kind != SCO && kind != EVENT {
      return 0;
    }
    out[0] := kind;
    forall k | 0 <= k < |packet| {
      out[1 + k] := packet[k];
    }
    n := 1 + |packet|;
  }
}
