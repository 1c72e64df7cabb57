/**
 What each operation of the bridge hands over and answers, told by its queues, the wire and the host's
 buffer alone (src/common/hci_bridge.c).
 */
module BridgeAnswers {
  import opened Bytes
  import opened CreditSpec
  import opened MoveLog
  import opened BridgeSpec
  import opened BridgeRuns
  import ScoPacket

  /** The queue behind a stream the host reads. */
  function Behind(stream: Stream): Line {
    match stream
    case EventStream => Events
    case AclStream => AclIn
    case ScoStream => ScoIn
  }

  /** Only this line and the counters may differ. */
  predicate OnlyOn(b: Bridge, n: Bridge, line: Line) {
    && n.ready == b.ready && n.pool == b.pool
    && (line != Held ==> n.held == b.held) && (line != Events ==> n.events == b.events)
    && (line != AclIn ==> n.aclIn == b.aclIn) && (line != ScoIn ==> n.scoIn == b.scoIn)
    && (line != ScoOut ==> n.scoOut == b.scoOut)
  }

  /**
   One pop. With nothing queued it fails. If the oldest packet fits the host's buffer it is handed over,
   and it alone leaves. If it does not, an event or ACL packet stays first in its queue; a voice packet is
   discarded.
   */
  lemma PopAnswers(b: Bridge, ports: Ports, stream: Stream, capacity: nat)
    ensures var line := Behind(stream);
            var q, o := Queue(b, line), Perform(b, ports, PopStream(stream, capacity));
            && OnlyOn(b, o.next, line)
            && (q == [] ==> o == Outcome(b, false, []))
            && (q != [] && |q[0]| <= capacity ==>
                  o.ok && o.moves == [Left(line, q[0], Delivered)] && Queue(o.next, line) == q[1..])
            && (q != [] && |q[0]| > capacity && stream != ScoStream ==> o == Outcome(b, false, []))
            && (q != [] && |q[0]| > capacity && stream == ScoStream ==>
                  !o.ok && o.moves == [Left(line, q[0], Oversize)] && Queue(o.next, line) == q[1..]
                  && o.next.c.scoIn.oversize == b.c.scoIn.oversize + 1)
  {
  }

  lemma PopFirst(b: Bridge, ports: Ports, stream: Stream, capacity: nat)
    requires Queue(b, Behind(stream)) != [] && |Queue(b, Behind(stream))[0]| <= capacity
    ensures var line := Behind(stream);
            var q, o := Queue(b, line), Perform(b, ports, PopStream(stream, capacity));
            o.moves == [Left(line, q[0], Delivered)] && Queue(o.next, line) == q[1..]
  {
    PopAnswers(b, ports, stream, capacity);
  }

  function Pops(stream: Stream, capacity: nat, n: nat): (ops: seq<Op>)
    ensures |ops| == n
  {
    if n == 0 then [] else [PopStream(stream, capacity)] + Pops(stream, capacity, n - 1)
  }

  lemma OneMorePop(b: Bridge, ports: Ports, stream: Stream, capacity: nat, n: nat)
    requires n > 0
    ensures var o := Perform(b, ports, PopStream(stream, capacity));
            var r := PerformAll(o.next, ports, Pops(stream, capacity, n - 1));
            PerformAll(b, ports, Pops(stream, capacity, n)) == Ran(r.last, o.moves + r.moves)
  {
    assert Pops(stream, capacity, n)[1..] == Pops(stream, capacity, n - 1);
  }

  lemma {:induction false} PopsTouchOneLine(b: Bridge, ports: Ports, stream: Stream, capacity: nat, n: nat)
    ensures OnlyOn(b, PerformAll(b, ports, Pops(stream, capacity, n)).last, Behind(stream))
    decreases n
  {
    if n > 0 {
      PopAnswers(b, ports, stream, capacity);
      OneMorePop(b, ports, stream, capacity, n);
      PopsTouchOneLine(Perform(b, ports, PopStream(stream, capacity)).next, ports, stream, capacity, n - 1);
    }
  }

  lemma {:induction false} PopsDeliver(b: Bridge, ports: Ports, stream: Stream, capacity: nat, q: seq<Packet>)
    requires q == Queue(b, Behind(stream)) && forall p <- q :: |p| <= capacity
    ensures var r := PerformAll(b, ports, Pops(stream, capacity, |q|));
            r.moves == Leave(Behind(stream), q, Delivered) && Queue(r.last, Behind(stream)) == []
    decreases |q|
  {
    if q != [] {
      PopFirst(b, ports, stream, capacity);
      OneMorePop(b, ports, stream, capacity, |q|);
      PopsDeliver(Perform(b, ports, PopStream(stream, capacity)).next, ports, stream, capacity, q[1..]);
    }
  }

  /** A host with room gets the whole queue, oldest packet first, one packet a pop. */
  lemma PopsHandOver(b: Bridge, ports: Ports, stream: Stream, capacity: nat)
    requires forall p <- Queue(b, Behind(stream)) :: |p| <= capacity
    ensures var line := Behind(stream);
            var q := Queue(b, line);
            var r := PerformAll(b, ports, Pops(stream, capacity, |q|));
            && r.moves == Leave(line, q, Delivered) && Queue(r.last, line) == []
            && OnlyOn(b, r.last, line)
  {
    PopsDeliver(b, ports, stream, capacity, Queue(b, Behind(stream)));
    PopsTouchOneLine(b, ports, stream, capacity, |Queue(b, Behind(stream))|);
  }

  lemma {:induction false} PerformAppend(b: Bridge, ports: Ports, x: seq<Op>, y: seq<Op>)
    ensures var r := PerformAll(b, ports, x);
            var t := PerformAll(r.last, ports, y);
            PerformAll(b, ports, x + y) == Ran(t.last, r.moves + t.moves)
    decreases |x|
  {
    if x == [] {
      assert x + y == y;
    } else {
      assert (x + y)[0] == x[0] && (x + y)[1..] == x[1..] + y;
      var o := Perform(b, ports, x[0]);
      PerformAppend(o.next, ports, x[1..], y);
      var r := PerformAll(o.next, ports, x[1..]);
      Assoc(o.moves, r.moves, PerformAll(r.last, ports, y).moves);
    }
  }

  /** What waits has entered, so it is admissible. */
  lemma WaitingIsAdmissible(ports: Ports, ops: seq<Op>, line: Line)
    ensures forall p <- Queue(PerformAll(FRESH, ports, ops).last, line) :: Admissible(line, p)
  {
    var r := PerformAll(FRESH, ports, ops);
    QueuesConserve(FRESH, ports, ops, line);
    OnlyAdmissibleWait(FRESH, ports, ops, line);
    var left, q := LeftOn(r.moves, line), Queue(r.last, line);
    assert [] + EnteredOn(r.moves, line) == EnteredOn(r.moves, line);
    forall p | p in q ensures Admissible(line, p) {
      assert p in left + q;
    }
  }

  lemma DeliveryAppend(m: seq<Move<Packet>>, q: seq<Packet>, line: Line)
    ensures EnteredOn(m + Leave(line, q, Delivered), line) == EnteredOn(m, line)
    ensures LeftOn(m + Leave(line, q, Delivered), line) == LeftOn(m, line) + q
    ensures Count(m + Leave(line, q, Delivered), line, Delivered) == Count(m, line, Delivered) + |q|
  {
    LeaveNext(m, line, q, Delivered, line, Delivered);
  }

  /**
   Everything arrives. After any run without a reset, a host whose buffer takes any event (260 bytes) or
   ACL packet (1028 bytes) has, one pop for each packet still waiting, been handed every packet ever
   queued, in order and once.
   */
  lemma EverythingDelivered(ports: Ports, ops: seq<Op>, stream: Stream, capacity: nat)
    requires stream != ScoStream && capacity >= if stream == EventStream then 260 else 1028
    requires forall i :: 0 <= i < |ops| ==> ops[i] != Reset
    ensures var line := Behind(stream);
            var waiting := Queue(PerformAll(FRESH, ports, ops).last, line);
            var r := PerformAll(FRESH, ports, ops + Pops(stream, capacity, |waiting|));
            && Queue(r.last, line) == []
            && LeftOn(r.moves, line) == EnteredOn(PerformAll(FRESH, ports, ops).moves, line)
            && Count(r.moves, line, Delivered) == |LeftOn(r.moves, line)|
  {
    var line := Behind(stream);
    var r := PerformAll(FRESH, ports, ops);
    var q := Queue(r.last, line);
    NothingMissing(ports, ops, line);
    WaitingIsAdmissible(ports, ops, line);
    PopsHandOver(r.last, ports, stream, capacity);
    PerformAppend(FRESH, ports, ops, Pops(stream, capacity, |q|));
    DeliveryAppend(r.moves, q, line);
  }

  /* ---------------------------------------------------------------- outbound */

  /** The voice packets the wire takes before it refuses one. */
  function TakenByWire(q: seq<Packet>, ports: Ports, accept: nat): (n: nat)
    ensures n <= |q|
    ensures n == |q| <==> q == [] || (ports.sco && accept >= |q|)
    ensures n < |q| ==> n == if ports.sco then accept else 0
  {
    if !ports.sco then 0 else if accept < |q| then accept else |q|
  }

  /** Draining sends from the head as long as the wire takes packets; a refused one stays first. */
  lemma DrainAnswers(b: Bridge, ports: Ports, accept: nat)
    ensures var q, o := b.scoOut, Perform(b, ports, Drain(accept));
            var n := TakenByWire(q, ports, accept);
            && OnlyOn(b, o.next, ScoOut) && o.next.scoOut == q[n..]
            && o.moves == Leave(ScoOut, q[..n], Delivered)
            && o.next.c.scoOut.sentToWire == b.c.scoOut.sentToWire + n
  {
  }

  /**
   Becoming ready hands the wire the held command, whatever the wire says, and then the queued voice as
   far as the wire takes it; any other change of readiness hands over nothing.
   */
  lemma SetReadyAnswers(b: Bridge, ports: Ports, ready: bool, commandOk: bool, accept: nat)
    ensures var o := Perform(b, ports, SetReady(ready, commandOk, accept));
            var n := TakenByWire(b.scoOut, ports, accept);
            && o.next.ready == ready
            && (b.ready || !ready ==> o.moves == [] && o.next == b.(ready := ready))
            && (!b.ready && ready ==>
                  && o.moves == Leave(Held, b.held, Delivered) + Leave(ScoOut, b.scoOut[..n], Delivered)
                  && o.next.held == [] && o.next.scoOut == b.scoOut[n..]
                  && OnlyOn(b.(ready := ready, held := []), o.next, ScoOut)
                  && o.next.c.command.replayed == b.c.command.replayed + if b.held == [] then 0 else 1)
  {
  }

  /**
   A well-framed voice packet on a ready bridge joins the queue, which gives up its oldest packet if eight
   wait already; then the wire gets what it takes.
   */
  lemma SubmitScoAnswers(b: Bridge, ports: Ports, p: Packet, accept: nat)
    ensures var o := Perform(b, ports, SubmitSco(p, accept));
            var gone := if |b.scoOut| >= 8 then 1 else 0;
            var q := b.scoOut[gone..] + [p];
            var n := TakenByWire(q, ports, accept);
            && OnlyOn(b, o.next, ScoOut)
            && (o.ok <==> ScoPacket.WellFormed(p) && b.ready)
            && (!o.ok ==> o.moves == [] && o.next.scoOut == b.scoOut)
            && (o.ok ==>
                  && o.moves == Leave(ScoOut, b.scoOut[..gone], Overwritten) + [Entered(ScoOut, p)]
                                + Leave(ScoOut, q[..n], Delivered)
                  && o.next.scoOut == q[n..])
  {
  }

  /** A command is sent or held, or dropped for its framing; the answer is whether the wire took it or it is held. */
  lemma SubmitCommandAnswers(b: Bridge, ports: Ports, p: Packet, ok: bool)
    ensures var o := Perform(b, ports, SubmitCommand(p, ok));
            && OnlyOn(b, o.next, Held)
            && (o.ok <==> FramedCommand(p) && (!b.ready || (ports.command && ok)))
            && o.next.held == (if FramedCommand(p) && !b.ready then [p] else b.held)
            && o.next.c.command.dropped == b.c.command.dropped + (if FramedCommand(p) then 0 else 1)
            && o.next.c.command.sentToWire
               == b.c.command.sentToWire + (if FramedCommand(p) && b.ready && ports.command && ok then 1 else 0)
            && o.next.c.command.failedWire
               == b.c.command.failedWire + (if FramedCommand(p) && b.ready && ports.command && !ok then 1 else 0)
  {
  }

  /** A reset empties every queue and the hold slot, forgets all handles and gives back all credits. */
  lemma ResetAnswers(b: Bridge, ports: Ports, line: Line)
    ensures var o := Perform(b, ports, Op.Reset);
            && Queue(o.next, line) == [] && LeftOn(o.moves, line) == Queue(b, line)
            && o.next.ready == b.ready && o.next.c == b.c.(resets := b.c.resets + 1)
            && o.next.pool.total == o.next.pool.available == b.pool.total
            && (forall e <- o.next.pool.table :: !e.inUse)
  {
    FlushMoves(Queues(b), line, Delivered);
  }

  /** An ACL packet goes out exactly when it is well framed and readiness, a credit, a slot and the wire allow. */
  lemma SubmitAclAnswers(b: Bridge, ports: Ports, p: Packet, ok: bool)
    ensures var o := Perform(b, ports, SubmitAcl(p, ok));
            var counts, now := b.c.aclOut, o.next.c.aclOut;
            && o.moves == [] && o.next == b.(pool := o.next.pool, c := b.c.(aclOut := now))
            && (o.ok <==> && FramedAcl(p) && b.ready && b.pool.available > 0
                          && (exists e <- b.pool.table :: !e.inUse || e.handle == Handle12(p[0], p[1]))
                          && ports.acl && ok)
            && now.sentToWire == counts.sentToWire + (if o.ok then 1 else 0)
            && (FramedAcl(p) && !b.ready ==> now.notReady == counts.notReady + 1)
            && (FramedAcl(p) && b.ready && b.pool.available == 0 ==> now.noCredit == counts.noCredit + 1)
  {
    if FramedAcl(p) {
      SlotWhenRoom(b.pool.table, Handle12(p[0], p[1]));
    }
  }
}
