/**
 The host-to-controller voice path on values: a bounded ring of time-stamped isochronous frames
 and the reassembly of HCI SCO packets from the bytes they release (src/common/sco_usb.c).
 */
module ScoOutSpec {
  import opened Bytes
  import opened ScoPacket

  const SLOTS := 128
  const NO_HANDLE := 0xFFFF

  datatype Chunk = Chunk(due: nat, data: seq<byte>)

  /** part is the packet under reassembly, last the handle of the last complete packet. */
  datatype Core = Core(part: seq<byte>, resync: bool, last: nat)

  datatype Split = Split(rest: seq<byte>, packets: seq<seq<byte>>)

  datatype Taken = Taken(core: Core, sent: seq<seq<byte>>, skipped: bool)

  datatype Out = Out(ring: seq<Chunk>, core: Core, emitted: nat, drops: nat, skips: nat)

  /** As initialised and after a reset. */
  const NEW := Out([], Core([], false, NO_HANDLE), 0, 0, 0)

  function HandleOf(d: seq<byte>): nat
    requires |d| >= 2
  {
    Handle12(d[0], d[1])
  }

  /** The handle is the low 12 bits of the first two bytes, low byte first. */
  lemma HandleIsRead(field: u16, rest: seq<byte>)
    ensures HandleOf(Put16(field) + rest) == field % 4096
  {
  }

  /** A packet under reassembly: the header is short, or payload is still missing. */
  predicate Partial(p: seq<byte>) {
    |p| < HEADER || |p| < HEADER + p[2]
  }

  /** Reassembly one byte at a time: a packet leaves as soon as its declared length is reached. */
  function Absorb(part: seq<byte>, d: seq<byte>): Split
    decreases |d|
  {
    if d == [] then Split(part, [])
    else
      var p := part + [d[0]];
      if WellFormed(p) then
        var r := Absorb([], d[1..]);
        Split(r.rest, [p] + r.packets)
      else
        Absorb(p, d[1..])
  }

  /** After a loss, a frame may start a packet only if it opens with the last handle seen. */
  predicate Startable(last: nat, d: seq<byte>) {
    last == NO_HANDLE || (|d| >= 2 && HandleOf(d) == last)
  }

  function LastHandle(last: nat, packets: seq<seq<byte>>): nat {
    if packets == [] || |packets[|packets| - 1]| < 2 then last else HandleOf(packets[|packets| - 1])
  }

  /** One frame leaves the ring at its time. */
  function Take(c: Core, d: seq<byte>): Taken {
    if c.resync && !Startable(c.last, d) then
      Taken(c, [], true)
    else
      var r := Absorb(c.part, d);
      Taken(Core(r.rest, false, LastHandle(c.last, r.packets)), r.packets, false)
  }

  /** One frame is overwritten before its time. */
  function Lose(c: Core): Core {
    Core([], true, c.last)
  }

  function PushChunk(o: Out, c: Chunk): Out {
    if |o.ring| >= SLOTS then
      o.(ring := o.ring[1..] + [c], core := Lose(o.core), drops := o.drops + 1)
    else
      o.(ring := o.ring + [c])
  }

  /** An isochronous packet as it enters the ring: frames of at most 63 bytes. */
  function Frames(d: seq<byte>): (fs: seq<seq<byte>>)
    ensures Concat(fs) == d
    ensures forall i :: 0 <= i < |fs| ==> 1 <= |fs[i]| <= 63
    ensures forall i :: 0 <= i < |fs| - 1 ==> |fs[i]| == 63
    decreases |d|
  {
    if d == [] then []
    else
      var n := Min(MAX_ISO, |d|);
      assert d == d[..n] + d[n..];
      [d[..n]] + Frames(d[n..])
  }

  function PushFrames(o: Out, due: nat, fs: seq<seq<byte>>): Out
    decreases |fs|
  {
    if fs == [] then o else PushFrames(PushChunk(o, Chunk(due, fs[0])), due, fs[1..])
  }

  function Push(o: Out, due: nat, d: seq<byte>): Out {
    PushFrames(o, due, Frames(d))
  }

  datatype Released = Released(out: Out, sent: seq<seq<byte>>)

  function ReleaseOne(o: Out): Released
    requires o.ring != []
  {
    var t := Take(o.core, o.ring[0].data);
    Released(Out(o.ring[1..], t.core, o.emitted + |t.sent|, o.drops, o.skips + if t.skipped then 1 else 0),
             t.sent)
  }

  function Release(o: Out, now: nat): Released
    decreases |o.ring|
  {
    if o.ring == [] || o.ring[0].due > now then Released(o, [])
    else
      var one := ReleaseOne(o);
      var r := Release(one.out, now);
      Released(r.out, one.sent + r.sent)
  }

  /* ---------------------------------------------------------------- reassembly */

  /** What reassembly emits, plus what it holds back, is exactly what it was given. */
  lemma {:induction false} AbsorbConserves(part: seq<byte>, d: seq<byte>)
    requires Partial(part)
    ensures var r := Absorb(part, d);
            && Concat(r.packets) + r.rest == part + d
            && Partial(r.rest)
            && forall i :: 0 <= i < |r.packets| ==> WellFormed(r.packets[i])
    decreases |d|
  {
    if d == [] {
      assert part + d == part;
    } else {
      var p := part + [d[0]];
      assert part + d == p + d[1..];
      if WellFormed(p) {
        AbsorbConserves([], d[1..]);
        var r := Absorb([], d[1..]);
        assert Absorb(part, d) == Split(r.rest, [p] + r.packets);
        assert Concat([p] + r.packets) == p + Concat(r.packets) by {
          assert ([p] + r.packets)[1..] == r.packets;
        }
        assert p + Concat(r.packets) + r.rest == p + (Concat(r.packets) + r.rest) == p + d[1..];
      } else {
        AbsorbConserves(p, d[1..]);
      }
    }
  }

  /** Reassembly does not depend on where the byte stream is cut. */
  lemma {:induction false} AbsorbAppend(part: seq<byte>, a: seq<byte>, b: seq<byte>)
    ensures var r := Absorb(part, a);
            var s := Absorb(r.rest, b);
            Absorb(part, a + b) == Split(s.rest, r.packets + s.packets)
    decreases |a|
  {
    if a == [] {
      assert a + b == b;
    } else {
      var p := part + [a[0]];
      assert (a + b)[1..] == a[1..] + b;
      AbsorbAppend(if WellFormed(p) then [] else p, a[1..], b);
    }
  }

  /** Bytes that do not finish the packet under reassembly are only kept. */
  lemma {:induction false} AbsorbKeeps(part: seq<byte>, d: seq<byte>)
    requires Partial(part + d)
    ensures Absorb(part, d) == Split(part + d, [])
    decreases |d|
  {
    if d == [] {
      assert part + d == part;
    } else {
      var p := part + [d[0]];
      assert p + d[1..] == part + d;
      assert !WellFormed(p);
      AbsorbKeeps(p, d[1..]);
    }
  }

  /** Bytes that exactly finish the packet under reassembly emit it and nothing else. */
  lemma {:induction false} AbsorbFinishes(part: seq<byte>, d: seq<byte>)
    requires Partial(part) && WellFormed(part + d)
    ensures Absorb(part, d) == Split([], [part + d])
    decreases |d|
  {
    assert part + [] == part;
    var p := part + [d[0]];
    assert p + d[1..] == part + d;
    if |d| == 1 {
      assert p == part + d;
      assert Absorb([], d[1..]) == Split([], []);
    } else {
      assert !WellFormed(p) && Partial(p);
      AbsorbFinishes(p, d[1..]);
    }
  }

  /** A stream of well-formed packets and a started one is recovered exactly. */
  lemma {:induction false} AbsorbRecovers(packets: seq<seq<byte>>, tail: seq<byte>)
    requires Partial(tail)
    requires forall i :: 0 <= i < |packets| ==> WellFormed(packets[i])
    ensures Absorb([], Concat(packets) + tail) == Split(tail, packets)
    decreases |packets|
  {
    if packets == [] {
      assert Concat(packets) + tail == [] + tail == tail;
      AbsorbKeeps([], tail);
    } else {
      var p := packets[0];
      var later := Concat(packets[1..]) + tail;
      assert Concat(packets) + tail == p + later;
      assert [] + p == p;
      AbsorbFinishes([], p);
      AbsorbRecovers(packets[1..], tail);
      AbsorbAppend([], p, later);
      assert packets == [p] + packets[1..];
    }
  }
}
