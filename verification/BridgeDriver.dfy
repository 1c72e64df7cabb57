/** The bridge as the driver runs it: packet rings, a hold slot and a credit pool updated in place. */
module BridgeDriver {
  import opened Bytes
  import opened CreditSpec
  import opened BridgeSpec
  import opened BridgeAnswers
  import opened Credits
  import opened PacketRing
  import ScoPacket

  class HciBridge {
    const ports: Ports
    const events: PacketQueue
    const aclIn: PacketQueue
    const scoIn: PacketQueue
    const scoOut: PacketQueue
    const pool: CreditPool
    var ready: bool
    var heldCommand: Packet
    var heldPending: bool
    var counters: Counters

    /** The rings share no storage. */
    ghost predicate Apart() {
      && events != aclIn && events != scoIn && events != scoOut
      && aclIn != scoIn && aclIn != scoOut && scoIn != scoOut
      && events.slots != aclIn.slots && events.slots != scoIn.slots && events.slots != scoOut.slots
      && aclIn.slots != scoIn.slots && aclIn.slots != scoOut.slots && scoIn.slots != scoOut.slots
    }

    ghost predicate Valid()
      reads this, events, aclIn, scoIn, scoOut, pool
    {
      && Apart()
      && events.Valid() && aclIn.Valid() && scoIn.Valid() && scoOut.Valid() && pool.Valid()
      && events.slots.Length == EVENT_DEPTH && aclIn.slots.Length == ACL_DEPTH
      && scoIn.slots.Length == SCO_DEPTH && scoOut.slots.Length == SCO_DEPTH
    }

    ghost function Model(): (b: Bridge)
      reads this, events, aclIn, scoIn, scoOut, pool
      reads events.slots, aclIn.slots, scoIn.slots, scoOut.slots, pool.handles
      requires Valid()
    {
      Bridge(ready, if heldPending then [heldCommand] else [],
             events.Contents(), aclIn.Contents(), scoIn.Contents(), scoOut.Contents(),
             pool.Model(), counters)
    }

    constructor (ports: Ports)
      ensures Valid() && Model() == BridgeSpec.FRESH && this.ports == ports
      ensures fresh(events) && fresh(aclIn) && fresh(scoIn) && fresh(scoOut) && fresh(pool)
    {
      this.ports := ports;
      events := new PacketQueue(EVENT_DEPTH);
      aclIn := new PacketQueue(ACL_DEPTH);
      scoIn := new PacketQueue(SCO_DEPTH);
      scoOut := new PacketQueue(SCO_DEPTH);
      pool := new CreditPool();
      ready, heldCommand, heldPending, counters := false, [], false, ZERO;
    }

    /** Offers queued voice to the wire until it refuses a packet; accept is how many it would take. */
    method DrainOutboundSco(accept: nat)
      requires Valid()
      modifies `counters, scoOut
      ensures Valid()
      ensures Model() == DrainSco(old(Model()), ports, accept).next
    {
      if !ports.sco {
        return;
      }
      var taken := 0;
      ghost var k := counters.scoOut;
      ghost var q := scoOut.Contents();
      while scoOut.count > 0 && taken < accept
        invariant Valid() && taken <= |q| && taken <= accept
        invariant scoOut.Contents() == q[taken..]
        invariant counters == old(counters).(scoOut := k.(sentToWire := k.sentToWire + taken))
        decreases scoOut.count
      {
        counters := counters.(scoOut := counters.scoOut.(sentToWire := counters.scoOut.sentToWire + 1));
        scoOut.DropOldest();
        taken := taken + 1;
        assert q[taken - 1..][1..] == q[taken..];
      }
      assert taken == Min(accept, |q|);
    }

    method OfferCommand(ok: bool) returns (sent: bool)
      modifies `counters
      ensures counters == old(counters).(command := Offer(old(counters).command, ports, ok))
      ensures sent == (ports.command && ok)
    {
      if !ports.command {
        return false;
      }
      var k := counters.command;
      if ok {
        counters := counters.(command := k.(sentToWire := k.sentToWire + 1));
      } else {
        counters := counters.(command := k.(failedWire := k.failedWire + 1));
      }
      return ok;
    }

    /** Hands the held command, if any, to the wire. */
    method ReplayHeld(commandOk: bool)
      requires Valid()
      modifies `heldPending, `counters
      ensures Valid()
      ensures Model() == Replay(old(Model()), ports, commandOk).next
    {
      if heldPending {
        heldPending := false;
        counters := counters.(command := counters.command.(replayed := counters.command.replayed + 1));
        var _ := OfferCommand(commandOk);
      }
    }

    method SetReady(value: bool, commandOk: bool, accept: nat)
      requires Valid()
      modifies this, scoOut
      ensures Valid()
      ensures Model() == DoSetReady(old(Model()), ports, value, commandOk, accept).next
    {
      var wasReady := ready;
      ready := value;
      if !wasReady && value {
        ReplayHeld(commandOk);
        DrainOutboundSco(accept);
      }
    }

    method SubmitCommand(p: Packet, wireOk: bool) returns (ok: bool)
      requires Valid()
      modifies this
      ensures Valid()
      ensures var o := DoSubmitCommand(old(Model()), ports, p, wireOk); Model() == o.next && ok == o.ok
    {
      var k := counters.command;
      if |p| < COMMAND_HEADER || |p| != COMMAND_HEADER + p[2] || |p| > 258 {
        counters := counters.(command := k.(dropped := k.dropped + 1));
        return false;
      }
      k := k.(submitted := k.submitted + 1);
      if !ready {
        if heldPending {
          k := k.(heldOverwritten := k.heldOverwritten + 1);
        }
        heldCommand := p;
        heldPending := true;
        counters := counters.(command := k.(held := k.held + 1));
        return true;
      }
      counters := counters.(command := k);
      ok := OfferCommand(wireOk);
    }

    /** Readiness, credit, handle slot, wire: the first one missing decides the counter. */
    method OfferAclPacket(h: u16, wireOk: bool) returns (ok: bool)
      requires Valid()
      modifies `counters, pool, pool.handles
      ensures Valid()
      ensures var a := OfferAcl(old(counters).aclOut, old(pool.Model()), ready, ports, h, wireOk);
              counters == old(counters).(aclOut := a.counts) && pool.Model() == a.pool && ok == a.ok
    {
      var k := counters.aclOut.(submitted := counters.aclOut.submitted + 1);
      if !ready {
        counters := counters.(aclOut := k.(notReady := k.notReady + 1));
        return false;
      }
      if pool.available == 0 {
        counters := counters.(aclOut := k.(noCredit := k.noCredit + 1));
        return false;
      }
      var slot := pool.ReserveHandleSlot(h);
      if slot < 0 {
        counters := counters.(aclOut := k.(noHandleSlot := k.noHandleSlot + 1));
        return false;
      }
      if !ports.acl {
        counters := counters.(aclOut := k);
        return false;
      }
      if wireOk {
        pool.Spend(slot);
        counters := counters.(aclOut := k.(sentToWire := k.sentToWire + 1));
        return true;
      }
      counters := counters.(aclOut := k.(wireFailed := k.wireFailed + 1));
      return false;
    }

    method SubmitAcl(p: Packet, wireOk: bool) returns (ok: bool)
      requires Valid()
      modifies `counters, pool, pool.handles
      ensures Valid()
      ensures var o := DoSubmitAcl(old(Model()), ports, p, wireOk); Model() == o.next && ok == o.ok
    {
      if |p| < ACL_HEADER || |p| != ACL_HEADER + Le16(p[2], p[3]) || |p| > 1028 {
        return false;
      }
      ok := OfferAclPacket(Handle12(p[0], p[1]), wireOk);
    }

    /** Overwrite-oldest: a full voice queue gives up its oldest packet for the new one. */
    method Overwrite(q: PacketQueue, p: Packet) returns (lost: nat)
      requires q.Valid() && q.slots.Length == SCO_DEPTH
      modifies q, q.slots
      ensures q.Valid() && lost == Surplus(old(q.Contents()))
      ensures q.Contents() == old(q.Contents())[lost..] + [p]
    {
      lost := 0;
      if q.count >= SCO_DEPTH {
        q.DropOldest();
        lost := 1;
      }
      q.Put(p);
    }

    method QueueOutboundSco(p: Packet)
      requires Valid()
      modifies `counters, scoOut, scoOut.slots
      ensures Valid()
      ensures Model() == QueueSco(old(Model()), p).next
    {
      var lost := Overwrite(scoOut, p);
      var k := counters.scoOut;
      counters := counters.(scoOut := k.(submitted := k.submitted + 1, overwrites := k.overwrites + lost));
    }

    method SubmitSco(p: Packet, accept: nat) returns (ok: bool)
      requires Valid()
      modifies `counters, scoOut, scoOut.slots
      ensures Valid()
      ensures var o := DoSubmitSco(old(Model()), ports, p, accept); Model() == o.next && ok == o.ok
    {
      if |p| < ScoPacket.HEADER || |p| != ScoPacket.HEADER + p[2] || |p| > 258 {
        return false;
      }
      if !ready {
        var k := counters.scoOut;
        counters := counters.(scoOut := k.(submitted := k.submitted + 1, notReady := k.notReady + 1));
        return false;
      }
      QueueOutboundSco(p);
      DrainOutboundSco(accept);
      return true;
    }

    method HasStream(stream: Stream) returns (some: bool)
      requires Valid()
      ensures some == match stream
                      case EventStream => Model().events != []
                      case AclStream => Model().aclIn != []
                      case ScoStream => Model().scoIn != []
    {
      match stream
      case EventStream => some := events.count > 0;
      case AclStream => some := aclIn.count > 0;
      case ScoStream => some := scoIn.count > 0;
    }

    /** The oldest packet leaves if it fits the host's buffer. */
    method PopFitting(q: PacketQueue, capacity: nat) returns (written: seq<Packet>)
      requires q.Valid()
      modifies q
      ensures q.Valid()
      ensures var w := old(q.Contents());
              if w == [] || |w[0]| > capacity then written == [] && q.Contents() == w
              else written == [w[0]] && q.Contents() == w[1..]
    {
      written := [];
      if q.count > 0 {
        var p := q.Peek();
        if |p| <= capacity {
          written := [p];
          q.DropOldest();
        }
      }
    }

    /** written holds the packet copied to the host; a voice packet that does not fit is discarded. */
    method PopStream(stream: Stream, capacity: nat) returns (written: seq<Packet>)
      requires Valid()
      modifies `counters, events, aclIn, scoIn
      ensures Valid()
      ensures var o := DoPopStream(old(Model()), stream, capacity);
              && Model() == o.next
              && written == if o.ok then [o.moves[0].p] else []
      ensures var q := old(Queue(Model(), Behind(stream)));
              written == if q != [] && |q[0]| <= capacity then [q[0]] else []
    {
      match stream
      case EventStream =>
        written := PopFitting(events, capacity);
      case AclStream =>
        written := PopFitting(aclIn, capacity);
      case ScoStream =>
        written := PopFitting(scoIn, capacity);
        if written == [] && scoIn.count > 0 {
          scoIn.DropOldest();
          counters := counters.(scoIn := counters.scoIn.(oversize := counters.scoIn.oversize + 1));
        }
    }

    method ClearQueues()
      requires Apart()
      requires events.Valid() && aclIn.Valid() && scoIn.Valid() && scoOut.Valid()
      modifies events, aclIn, scoIn, scoOut
      ensures events.Valid() && aclIn.Valid() && scoIn.Valid() && scoOut.Valid()
      ensures events.Contents() == aclIn.Contents() == scoIn.Contents() == scoOut.Contents() == []
    {
      events.Clear();
      aclIn.Clear();
      scoIn.Clear();
      scoOut.Clear();
    }

    method Reset()
      requires Valid()
      modifies this, events, aclIn, scoIn, scoOut, pool, pool.handles
      ensures Valid()
      ensures Model() == DoReset(old(Model())).next
    {
      ClearQueues();
      heldPending := false;
      heldCommand := [];
      pool.Clear();
      counters := counters.(resets := counters.resets + 1);
    }

    /** Reads the credit news off an event before anyone decides whether the host sees it. */
    method SnoopCredits(p: Packet)
      requires Valid() && |p| >= EVENT_HEADER
      modifies pool, pool.handles
      ensures pool.Valid() && pool.Model() == Snoop(old(pool.Model()), p)
    {
      if p[0] == 0x0E && |p| >= 13 && Le16(p[3], p[4]) == 0x1005 && p[5] == 0 {
        pool.LearnTotal(Le16(p[9], p[10]));
        RunOne(old(pool.Model()), Learned(Le16(p[9], p[10])));
      } else if p[0] == 0x13 && |p| >= 3 && |p| >= CompletionsEnd(p[2]) {
        SnoopCompletions(p);
      } else if p[0] == 0x05 && |p| >= 6 && p[2] == 0 {
        pool.RecordDisconnection(Handle12(p[3], p[4]));
        RunOne(old(pool.Model()), Disconnected(Handle12(p[3], p[4])));
      }
    }

    method SnoopCompletions(p: Packet)
      requires Valid() && |p| >= 3 && |p| >= CompletionsEnd(p[2])
      modifies pool, pool.handles
      ensures pool.Valid()
      ensures Runs(old(pool.Model()), Completions(p, p[2]))
      ensures pool.Model() == Run(old(pool.Model()), Completions(p, p[2]))
    {
      ghost var before := pool.Model();
      for i := 0 to p[2]
        invariant pool.Valid()
        invariant Runs(before, Completions(p, i)) && pool.Model() == Run(before, Completions(p, i))
      {
        var c := Completion(p, i);
        ghost var now := pool.Model();
        pool.RecordAclCompleted(c.h, c.n);
        RunOne(now, c);
        RunAppend(before, Completions(p, i), [c]);
      }
    }

    method OnEvent(p: Packet) returns (ok: bool)
      requires Valid()
      modifies `counters, events, events.slots, pool, pool.handles
      ensures Valid()
      ensures var o := DoOnEvent(old(Model()), p); Model() == o.next && ok == o.ok
    {
      if |p| < EVENT_HEADER || |p| != EVENT_HEADER + p[1] || |p| > 260 {
        return false;
      }
      if p[0] != 0xFF {
        SnoopCredits(p);
      }
      var v := Judge(p, ready, events.count < EVENT_DEPTH);
      counters := counters.(event := NoteEvent(counters.event, v));
      if v == Accept {
        events.Put(p);
      }
      return v == Accept;
    }

    method OnAcl(p: Packet) returns (ok: bool)
      requires Valid()
      modifies `counters, aclIn, aclIn.slots
      ensures Valid()
      ensures var o := DoOnAcl(old(Model()), p); Model() == o.next && ok == o.ok
    {
      if |p| < ACL_HEADER || |p| != ACL_HEADER + Le16(p[2], p[3]) || |p| > 1028 {
        return false;
      }
      var k := counters.aclIn.(received := counters.aclIn.received + 1);
      if !ready {
        counters := counters.(aclIn := k.(notReady := k.notReady + 1));
        return false;
      }
      if aclIn.count >= ACL_DEPTH {
        counters := counters.(aclIn := k.(fifoFull := k.fifoFull + 1));
        return false;
      }
      aclIn.Put(p);
      counters := counters.(aclIn := k.(queued := k.queued + 1));
      return true;
    }

    method OnSco(p: Packet) returns (ok: bool)
      requires Valid()
      modifies `counters, scoIn, scoIn.slots
      ensures Valid()
      ensures var o := DoOnSco(old(Model()), p); Model() == o.next && ok == o.ok
    {
      if |p| < ScoPacket.HEADER || |p| != ScoPacket.HEADER + p[2] || |p| > 258 {
        return false;
      }
      var k := counters.scoIn.(received := counters.scoIn.received + 1);
      if !ready {
        counters := counters.(scoIn := k.(notReady := k.notReady + 1));
        return false;
      }
      var lost := Overwrite(scoIn, p);
      counters := counters.(scoIn := k.(overwrites := k.overwrites + lost, queued := k.queued + 1));
      return true;
    }

    /** Routes a received packet to the feed of its stream. */
    method OnInbound(stream: Stream, p: Packet) returns (ok: bool)
      requires Valid()
      modifies `counters, events, events.slots, aclIn, aclIn.slots, scoIn, scoIn.slots, pool, pool.handles
      ensures Valid()
      ensures var o := match stream
                       case EventStream => DoOnEvent(old(Model()), p)
                       case AclStream => DoOnAcl(old(Model()), p)
                       case ScoStream => DoOnSco(old(Model()), p);
              Model() == o.next && ok == o.ok
    {
      match stream
      case EventStream => ok := OnEvent(p);
      case AclStream => ok := OnAcl(p);
      case ScoStream => ok := OnSco(p);
    }
  }

  lemma RunOne(p: Pool, s: Step)
    requires Can(p, s)
    ensures Runs(p, [s]) && Run(p, [s]) == Apply(p, s)
  {
  }
}
