/**
 The virtual frame clock: every transfer gets its slot after the previous one, every isochronous packet
 of an OUT transfer its place inside the slot (src/common/sco_usb.c, src/driver/endpoints.c).
 Times are in 100 ns units.
 */
module ScoPacingSpec {
  import opened Bytes
  import opened ScoPacket
  import opened ScoOutSpec

  const FRAME := 10000
  const MSBC_FRAME := 75000

  function Schedule(nextFree: nat, now: nat, span: nat): nat {
    Max(nextFree, now) + span
  }

  function PacketSpan(maxPacket: nat, length: nat): nat {
    if maxPacket >= MAX_ISO && length > HEADER then MSBC_FRAME else FRAME
  }

  /* ---------------------------------------------------------------- the clock */

  datatype Transfer = Transfer(now: nat, span: nat)

  /** The clock after a series of transfers, the latest last. */
  function Clock(start: nat, ts: seq<Transfer>): nat
    decreases |ts|
  {
    if ts == [] then start
    else
      var n := |ts| - 1;
      Schedule(Clock(start, ts[..n]), ts[n].now, ts[n].span)
  }

  /** The air time of transfer k and all those after it. */
  function SpanFrom(ts: seq<Transfer>, k: nat): nat
    requires k <= |ts|
    decreases |ts| - k
  {
    if k == |ts| then 0 else ts[k].span + SpanFrom(ts, k + 1)
  }

  lemma {:induction false} SpanFromInit(ts: seq<Transfer>, k: nat)
    requires k < |ts|
    ensures SpanFrom(ts, k) == SpanFrom(ts[..|ts| - 1], k) + ts[|ts| - 1].span
    decreases |ts| - k
  {
    if k + 1 < |ts| {
      SpanFromInit(ts, k + 1);
    }
  }

  /** t is the due time if the endpoint was last free at start, or went idle before some transfer k. */
  ghost predicate Bound(start: nat, ts: seq<Transfer>, t: nat) {
    && start + SpanFrom(ts, 0) <= t
    && forall k :: 0 <= k < |ts| ==> ts[k].now + SpanFrom(ts, k) <= t
  }

  ghost predicate Reached(start: nat, ts: seq<Transfer>, t: nat) {
    || start + SpanFrom(ts, 0) == t
    || exists k :: 0 <= k < |ts| && ts[k].now + SpanFrom(ts, k) == t
  }

  /**
   Closed form of the pacing clock: the due time is the maximum, over the points where the endpoint
   could have been idle, of that time plus all the air time submitted since.
   */
  lemma {:induction false} PacingClosedForm(start: nat, ts: seq<Transfer>)
    ensures Bound(start, ts, Clock(start, ts)) && Reached(start, ts, Clock(start, ts))
    ensures forall t: nat :: Bound(start, ts, t) && Reached(start, ts, t) ==> t == Clock(start, ts)
    decreases |ts|
  {
    if ts != [] {
      var n := |ts| - 1;
      var before := ts[..n];
      PacingClosedForm(start, before);
      forall k | 0 <= k < n ensures SpanFrom(ts, k) == SpanFrom(before, k) + ts[n].span {
        SpanFromInit(ts, k);
      }
      assert SpanFrom(ts, n) == ts[n].span + SpanFrom(ts, n + 1);
      assert SpanFrom(before, n) == 0;
      assert SpanFrom(ts, 0) == SpanFrom(before, 0) + ts[n].span;
      assert Bound(start, ts, Clock(start, ts));
      if Clock(start, before) < ts[n].now {
        assert ts[n].now + SpanFrom(ts, n) == Clock(start, ts);
      } else if start + SpanFrom(before, 0) != Clock(start, before) {
        var k :| 0 <= k < n && before[k].now + SpanFrom(before, k) == Clock(start, before);
        assert ts[k].now + SpanFrom(ts, k) == Clock(start, ts);
      }
    }
  }

  /* ---------------------------------------------------------------- OUT transfers */

  /** An isochronous packet of a transfer: where its bytes lie in the transfer buffer. */
  datatype Iso = Iso(offset: nat, length: nat)

  datatype Path = Path(out: Out, nextFree: nat)

  predicate Fits(buffer: seq<byte>, p: Iso) {
    p.offset <= |buffer| && p.length <= |buffer| - p.offset
  }

  function Payload(buffer: seq<byte>, p: Iso): seq<byte>
    requires Fits(buffer, p)
  {
    buffer[p.offset..p.offset + p.length]
  }

  function IsoSpan(maxPacket: nat, buffer: seq<byte>, p: Iso): nat {
    if Fits(buffer, p) then PacketSpan(maxPacket, p.length) else FRAME
  }

  function TotalSpan(maxPacket: nat, buffer: seq<byte>, ps: seq<Iso>): nat {
    if ps == [] then 0 else IsoSpan(maxPacket, buffer, ps[0]) + TotalSpan(maxPacket, buffer, ps[1..])
  }

  function TotalBytes(buffer: seq<byte>, ps: seq<Iso>): nat {
    if ps == [] then 0 else (if Fits(buffer, ps[0]) then ps[0].length else 0) + TotalBytes(buffer, ps[1..])
  }

  function Overruns(buffer: seq<byte>, ps: seq<Iso>): nat {
    if ps == [] then 0 else (if Fits(buffer, ps[0]) then 0 else 1) + Overruns(buffer, ps[1..])
  }

  /** Air time of a packet: 7.5 ms for voice on setting 6, a 1 ms frame for anything else. */
  lemma SpanInNumbers(maxPacket: nat, buffer: seq<byte>, p: Iso)
    ensures IsoSpan(maxPacket, buffer, p)
            == if maxPacket >= 63 && p.length > 3 && p.offset + p.length <= |buffer| then 75000 else 10000
  {
  }

  /** The two counts of a transfer, one packet more: bytes of packets inside the buffer, and packets outside it. */
  lemma {:induction false} TotalsInNumbers(buffer: seq<byte>, ps: seq<Iso>, p: Iso)
    ensures var inside := p.offset + p.length <= |buffer|;
            && TotalBytes(buffer, ps + [p]) == TotalBytes(buffer, ps) + (if inside then p.length else 0)
            && Overruns(buffer, ps + [p]) == Overruns(buffer, ps) + (if inside then 0 else 1)
    ensures TotalBytes(buffer, []) == 0 && Overruns(buffer, []) == 0
    decreases |ps|
  {
    if ps == [] {
      assert ps + [p] == [p] && [p][1..] == [];
    } else {
      assert (ps + [p])[0] == ps[0] && (ps + [p])[1..] == ps[1..] + [p];
      TotalsInNumbers(buffer, ps[1..], p);
    }
  }

  /** Queues each packet's bytes for the end of its own slot, the first slot starting at `at`. */
  function QueueAll(o: Out, at: nat, maxPacket: nat, buffer: seq<byte>, ps: seq<Iso>): Out
    decreases |ps|
  {
    if ps == [] then o
    else
      var end := at + IsoSpan(maxPacket, buffer, ps[0]);
      QueueAll(if Fits(buffer, ps[0]) then Push(o, end, Payload(buffer, ps[0])) else o,
               end, maxPacket, buffer, ps[1..])
  }

  function AcceptOut(p: Path, now: nat, maxPacket: nat, buffer: seq<byte>, ps: seq<Iso>): Path {
    var span := TotalSpan(maxPacket, buffer, ps);
    var due := Schedule(p.nextFree, now, span);
    Path(QueueAll(p.out, due - span, maxPacket, buffer, ps), due)
  }

  datatype PathOp =
    | Submit(now: nat, maxPacket: nat, buffer: seq<byte>, packets: seq<Iso>)
    | Tick(now: nat)
    | Flush

  function Apply(p: Path, op: PathOp): Path {
    match op
    case Submit(now, maxPacket, buffer, packets) => AcceptOut(p, now, maxPacket, buffer, packets)
    case Tick(now) => p.(out := Release(p.out, now).out)
    case Flush => Path(NEW, 0)
  }

  function ApplyAll(p: Path, ops: seq<PathOp>): Path
    decreases |ops|
  {
    if ops == [] then p else ApplyAll(Apply(p, ops[0]), ops[1..])
  }

  predicate InOrder(ring: seq<Chunk>, limit: nat) {
    && (forall i, j :: 0 <= i < j < |ring| ==> ring[i].due <= ring[j].due)
    && (forall i :: 0 <= i < |ring| ==> ring[i].due <= limit)
  }

  lemma {:induction false} PushKeepsOrder(o: Out, due: nat, fs: seq<seq<byte>>, limit: nat)
    requires InOrder(o.ring, limit) && limit <= due
    ensures InOrder(PushFrames(o, due, fs).ring, due)
    decreases |fs|
  {
    if fs != [] {
      PushKeepsOrder(PushChunk(o, Chunk(due, fs[0])), due, fs[1..], due);
    }
  }

  /** The slots of a transfer follow one another, and the last one ends the transfer's span. */
  lemma {:induction false} QueueKeepsOrder(o: Out, at: nat, maxPacket: nat, buffer: seq<byte>, ps: seq<Iso>)
    requires InOrder(o.ring, at)
    ensures InOrder(QueueAll(o, at, maxPacket, buffer, ps).ring, at + TotalSpan(maxPacket, buffer, ps))
    decreases |ps|
  {
    if ps != [] {
      var end := at + IsoSpan(maxPacket, buffer, ps[0]);
      if Fits(buffer, ps[0]) {
        PushKeepsOrder(o, end, Frames(Payload(buffer, ps[0])), at);
        QueueKeepsOrder(Push(o, end, Payload(buffer, ps[0])), end, maxPacket, buffer, ps[1..]);
      } else {
        QueueKeepsOrder(o, end, maxPacket, buffer, ps[1..]);
      }
    }
  }

  lemma {:induction false} ReleaseIsDrop(o: Out, now: nat)
    ensures var left := Release(o, now).out.ring;
            && |left| <= |o.ring|
            && left == o.ring[|o.ring| - |left|..]
            && (forall i :: 0 <= i < |o.ring| - |left| ==> o.ring[i].due <= now)
            && (left != [] ==> left[0].due > now)
    decreases |o.ring|
  {
    if o.ring != [] && o.ring[0].due <= now {
      var one := ReleaseOne(o).out;
      ReleaseIsDrop(one, now);
      var left := Release(one, now).out.ring;
      assert one.ring[|one.ring| - |left|..] == o.ring[|o.ring| - |left|..];
      assert forall i :: 0 < i < |o.ring| ==> o.ring[i] == one.ring[i - 1];
    }
  }

  /** In a paced ring, a tick takes out exactly the frames whose time has come. */
  lemma ReleaseExact(o: Out, now: nat, limit: nat)
    requires InOrder(o.ring, limit)
    ensures var left := Release(o, now).out.ring;
            && |left| <= |o.ring|
            && left == o.ring[|o.ring| - |left|..]
            && forall i :: 0 <= i < |o.ring| ==> (o.ring[i].due <= now <==> i < |o.ring| - |left|)
  {
    ReleaseIsDrop(o, now);
    var left := Release(o, now).out.ring;
    if left != [] {
      assert o.ring[|o.ring| - |left|] == left[0];
    }
  }

  lemma ApplyKeepsOrder(p: Path, op: PathOp)
    requires InOrder(p.out.ring, p.nextFree)
    ensures var q := Apply(p, op); InOrder(q.out.ring, q.nextFree)
  {
    match op {
      case Submit(now, maxPacket, buffer, packets) =>
        var span := TotalSpan(maxPacket, buffer, packets);
        QueueKeepsOrder(p.out, Max(p.nextFree, now), maxPacket, buffer, packets);
      case Tick(now) =>
        ReleaseIsDrop(p.out, now);
      case Flush =>
    }
  }

  /**
   Over every run of transfers, ticks and flushes the queued frames are in order of their release
   times and none is due after the clock's last slot.
   */
  lemma {:induction false} AlwaysPaced(p: Path, ops: seq<PathOp>)
    requires InOrder(p.out.ring, p.nextFree)
    ensures var q := ApplyAll(p, ops); InOrder(q.out.ring, q.nextFree)
    decreases |ops|
  {
    if ops != [] {
      ApplyKeepsOrder(p, ops[0]);
      AlwaysPaced(Apply(p, ops[0]), ops[1..]);
    }
  }

  /** The transfers of a run that only submits, as the clock sees them. */
  function Transfers(ops: seq<PathOp>): seq<Transfer>
    decreases |ops|
  {
    if ops == [] then []
    else
      var n := |ops| - 1;
      Transfers(ops[..n])
      + (if ops[n].Submit?
         then [Transfer(ops[n].now, TotalSpan(ops[n].maxPacket, ops[n].buffer, ops[n].packets))]
         else [])
  }

  lemma {:induction false} ApplyAllSnoc(p: Path, ops: seq<PathOp>, op: PathOp)
    ensures ApplyAll(p, ops + [op]) == Apply(ApplyAll(p, ops), op)
    decreases |ops|
  {
    if ops == [] {
      assert ops + [op] == [op] && [op][1..] == [];
    } else {
      assert (ops + [op])[0] == ops[0] && (ops + [op])[1..] == ops[1..] + [op];
      ApplyAllSnoc(Apply(p, ops[0]), ops[1..], op);
    }
  }

  /** Between flushes, the clock of a run is the closed form of its transfers, whatever ticks occur. */
  lemma {:induction false} RunClock(p: Path, ops: seq<PathOp>)
    requires forall i :: 0 <= i < |ops| ==> !ops[i].Flush?
    ensures ApplyAll(p, ops).nextFree == Clock(p.nextFree, Transfers(ops))
    decreases |ops|
  {
    if ops != [] {
      var n := |ops| - 1;
      RunClock(p, ops[..n]);
      ApplyAllSnoc(p, ops[..n], ops[n]);
      assert ops == ops[..n] + [ops[n]];
      var ts := Transfers(ops);
      if ops[n].Submit? {
        assert ts[..|ts| - 1] == Transfers(ops[..n]);
      } else {
        assert ts == Transfers(ops[..n]);
      }
    }
  }
}
