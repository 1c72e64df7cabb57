/**
 What holds over every run of the bridge: nothing is lost without a record, in whatever order it is
 driven.
 */
module BridgeRuns {
  import opened Bytes
  import opened CreditSpec
  import opened MoveLog
  import opened BridgeSpec
  import H4Spec
  import ScoPacket

  /* ---------------------------------------------------------------- the ledger of the queues */

  predicate Ledger(b: Bridge, o: Outcome, line: Line) {
    InOrder(Queue(b, line), o.moves, Queue(o.next, line), line)
  }

  predicate Bounded(b: Bridge) {
    && |b.held| <= 1 && |b.events| <= 16 && |b.aclIn| <= 8 && |b.scoIn| <= 8 && |b.scoOut| <= 8
  }

  lemma DrainLedger(b: Bridge, ports: Ports, accept: nat, line: Line)
    ensures Ledger(b, DrainSco(b, ports, accept), line)
  {
    var n := if ports.sco then Min(accept, |b.scoOut|) else 0;
    if line == ScoOut {
      LeaveInOrder(ScoOut, b.scoOut, n, Delivered);
    } else {
      LeaveElsewhere(ScoOut, b.scoOut[..n], Delivered, Queue(b, line), line);
    }
  }

  lemma SetReadyLedger(b: Bridge, ports: Ports, ready: bool, commandOk: bool, accept: nat, line: Line)
    ensures Ledger(b, DoSetReady(b, ports, ready, commandOk, accept), line)
  {
    if !b.ready && ready {
      var now := b.(ready := true);
      var r := Replay(now, ports, commandOk);
      LeaveMoves(Held, b.held, Delivered, line, Delivered);
      assert Ledger(now, r, line);
      DrainLedger(r.next, ports, accept, line);
      var d := DrainSco(r.next, ports, accept);
      Chain(Queue(now, line), r.moves, Queue(r.next, line), d.moves, Queue(d.next, line), line);
    }
  }

  lemma HoldLedger(b: Bridge, p: Packet, line: Line)
    ensures Ledger(b, HoldCommand(b, p), line)
  {
    PushMoves(Held, b.held, Overwritten, p, line, Delivered);
  }

  lemma SubmitCommandLedger(b: Bridge, ports: Ports, p: Packet, ok: bool, line: Line)
    ensures Ledger(b, DoSubmitCommand(b, ports, p, ok), line)
  {
    HoldLedger(b, p, line);
  }

  lemma QueueScoLedger(b: Bridge, p: Packet, line: Line)
    ensures Ledger(b, QueueSco(b, p), line)
  {
    if line == ScoOut {
      PushInOrder(ScoOut, b.scoOut, Surplus(b.scoOut), Overwritten, p);
    } else {
      PushElsewhere(ScoOut, b.scoOut[..Surplus(b.scoOut)], Overwritten, p, Queue(b, line), line);
    }
  }

  lemma SubmitScoLedger(b: Bridge, ports: Ports, p: Packet, accept: nat, line: Line)
    ensures Ledger(b, DoSubmitSco(b, ports, p, accept), line)
  {
    if ScoPacket.WellFormed(p) && b.ready {
      var q := QueueSco(b, p);
      QueueScoLedger(b, p, line);
      DrainLedger(q.next, ports, accept, line);
      var d := DrainSco(q.next, ports, accept);
      Chain(Queue(b, line), q.moves, Queue(q.next, line), d.moves, Queue(d.next, line), line);
    }
  }

  lemma PopEventLedger(b: Bridge, capacity: nat, line: Line)
    ensures Ledger(b, PopEvent(b, capacity), line)
  {
    if !PopEvent(b, capacity).ok {
      Still(Queue(b, line), line);
    } else if line == Events {
      FrontLeaves(Events, b.events, Delivered);
    } else {
      OthersStay(Events, b.events[0], Delivered, Queue(b, line), line);
    }
  }

  lemma PopAclLedger(b: Bridge, capacity: nat, line: Line)
    ensures Ledger(b, PopAcl(b, capacity), line)
  {
    if !PopAcl(b, capacity).ok {
      Still(Queue(b, line), line);
    } else if line == AclIn {
      FrontLeaves(AclIn, b.aclIn, Delivered);
    } else {
      OthersStay(AclIn, b.aclIn[0], Delivered, Queue(b, line), line);
    }
  }

  lemma PopScoLedger(b: Bridge, capacity: nat, line: Line)
    ensures Ledger(b, PopSco(b, capacity), line)
  {
    if b.scoIn == [] {
      Still(Queue(b, line), line);
    } else {
      var why := if |b.scoIn[0]| > capacity then Oversize else Delivered;
      if line == ScoIn {
        FrontLeaves(ScoIn, b.scoIn, why);
      } else {
        OthersStay(ScoIn, b.scoIn[0], why, Queue(b, line), line);
      }
    }
  }

  lemma PopLedger(b: Bridge, stream: Stream, capacity: nat, line: Line)
    ensures Ledger(b, DoPopStream(b, stream, capacity), line)
  {
    match stream
    case EventStream => PopEventLedger(b, capacity, line);
    case AclStream => PopAclLedger(b, capacity, line);
    case ScoStream => PopScoLedger(b, capacity, line);
  }

  lemma ResetLedger(b: Bridge, line: Line)
    ensures Ledger(b, DoReset(b), line)
  {
    FlushMoves(Queues(b), line, Delivered);
  }

  lemma OnEventLedger(b: Bridge, p: Packet, line: Line)
    ensures Ledger(b, DoOnEvent(b, p), line)
  {
    OneMove(Entered(Events, p), line, Delivered);
  }

  lemma OnAclLedger(b: Bridge, p: Packet, line: Line)
    ensures Ledger(b, DoOnAcl(b, p), line)
  {
    OneMove(Entered(AclIn, p), line, Delivered);
  }

  lemma KeepScoLedger(b: Bridge, p: Packet, line: Line)
    ensures Ledger(b, KeepSco(b, p), line)
  {
    if line == ScoIn {
      PushInOrder(ScoIn, b.scoIn, Surplus(b.scoIn), Overwritten, p);
    } else {
      PushElsewhere(ScoIn, b.scoIn[..Surplus(b.scoIn)], Overwritten, p, Queue(b, line), line);
    }
  }

  lemma OnScoLedger(b: Bridge, p: Packet, line: Line)
    ensures Ledger(b, DoOnSco(b, p), line)
  {
    KeepScoLedger(b, p, line);
  }

  lemma OpLedger(b: Bridge, ports: Ports, o: Op, line: Line)
    ensures Ledger(b, Perform(b, ports, o), line)
  {
    match o
    case SetReady(ready, commandOk, accept) => SetReadyLedger(b, ports, ready, commandOk, accept, line);
    case SubmitCommand(p, ok) => SubmitCommandLedger(b, ports, p, ok, line);
    case SubmitAcl(p, ok) =>
    case SubmitSco(p, accept) => SubmitScoLedger(b, ports, p, accept, line);
    case Drain(accept) => DrainLedger(b, ports, accept, line);
    case PopStream(stream, capacity) => PopLedger(b, stream, capacity, line);
    case Reset => ResetLedger(b, line);
    case OnEvent(p) => OnEventLedger(b, p, line);
    case OnAcl(p) => OnAclLedger(b, p, line);
    case OnSco(p) => OnScoLedger(b, p, line);
  }

  lemma OpKeepsBounds(b: Bridge, ports: Ports, o: Op)
    requires Bounded(b)
    ensures Bounded(Perform(b, ports, o).next)
  {
  }

  /**
   Every queue, over every run: the packets that entered are, in order, the packets that left and the
   packets still waiting, and no queue outgrows its slots. Each packet leaves at most once.
   */
  lemma {:induction false} QueuesConserve(b: Bridge, ports: Ports, ops: seq<Op>, line: Line)
    requires Bounded(b)
    ensures var r := PerformAll(b, ports, ops);
            InOrder(Queue(b, line), r.moves, Queue(r.last, line), line) && Bounded(r.last)
    decreases |ops|
  {
    if ops != [] {
      var o := Perform(b, ports, ops[0]);
      OpLedger(b, ports, ops[0], line);
      OpKeepsBounds(b, ports, ops[0]);
      QueuesConserve(o.next, ports, ops[1..], line);
      var r := PerformAll(o.next, ports, ops[1..]);
      Chain(Queue(b, line), o.moves, Queue(o.next, line), r.moves, Queue(r.last, line), line);
    }
  }

  /* ---------------------------------------------------------------- counters against the ledger */

  /** The counter of packets that entered a line; outbound voice is counted when submitted. */
  function Enrolled(c: Counters, line: Line): int {
    match line
    case Held => c.command.held
    case Events => c.event.queued
    case AclIn => c.aclIn.queued
    case ScoIn => c.scoIn.queued
    case ScoOut => c.scoOut.submitted - c.scoOut.notReady
  }

  /** Deliveries to the host and packets flushed by a reset have no counter. */
  predicate Counted(line: Line, fate: Fate) {
    fate != Flushed && (fate == Delivered ==> line == Held || line == ScoOut)
  }

  function BookedHeld(k: CommandCounts, fate: Fate): nat {
    match fate
    case Delivered => k.replayed
    case Overwritten => k.heldOverwritten
    case _ => 0
  }

  function BookedOut(k: ScoOutCounts, fate: Fate): nat {
    match fate
    case Delivered => k.sentToWire
    case Overwritten => k.overwrites
    case _ => 0
  }

  function BookedIn(k: ScoInCounts, fate: Fate): nat {
    match fate
    case Overwritten => k.overwrites
    case Oversize => k.oversize
    case _ => 0
  }

  /** The counter of packets that left a line this way; zero for what must never happen. */
  function Booked(c: Counters, line: Line, fate: Fate): nat {
    match line
    case Held => BookedHeld(c.command, fate)
    case Events => 0
    case AclIn => 0
    case ScoIn => BookedIn(c.scoIn, fate)
    case ScoOut => BookedOut(c.scoOut, fate)
  }

  /** The counters of a line moved by exactly what the moves say. */
  predicate Agree(c: Counters, moves: seq<Move<Packet>>, d: Counters, line: Line, fate: Fate) {
    && Enrolled(d, line) == Enrolled(c, line) + |EnteredOn(moves, line)|
    && (Counted(line, fate) ==> Booked(d, line, fate) == Booked(c, line, fate) + Count(moves, line, fate))
  }

  predicate Records(b: Bridge, o: Outcome, line: Line, fate: Fate) {
    Agree(b.c, o.moves, o.next.c, line, fate)
  }

  lemma AgreeChain(c: Counters, m: seq<Move<Packet>>, d: Counters, n: seq<Move<Packet>>, e: Counters,
                   line: Line, fate: Fate)
    requires Agree(c, m, d, line, fate) && Agree(d, n, e, line, fate)
    ensures Agree(c, m + n, e, line, fate)
  {
    EnteredAppend(m, n, line);
    CountAppend(m, n, line, fate);
  }

  lemma DrainRecords(b: Bridge, ports: Ports, accept: nat, line: Line, fate: Fate)
    ensures Records(b, DrainSco(b, ports, accept), line, fate)
  {
    var n := if ports.sco then Min(accept, |b.scoOut|) else 0;
    LeaveMoves(ScoOut, b.scoOut[..n], Delivered, line, fate);
  }

  lemma ReplayRecords(b: Bridge, ports: Ports, ok: bool, line: Line, fate: Fate)
    requires Bounded(b)
    ensures Records(b, Replay(b, ports, ok), line, fate)
  {
    LeaveMoves(Held, b.held, Delivered, line, fate);
  }

  lemma SetReadyRecords(b: Bridge, ports: Ports, ready: bool, commandOk: bool, accept: nat, line: Line, fate: Fate)
    requires Bounded(b)
    ensures Records(b, DoSetReady(b, ports, ready, commandOk, accept), line, fate)
  {
    if !b.ready && ready {
      var r := Replay(b.(ready := true), ports, commandOk);
      ReplayRecords(b.(ready := true), ports, commandOk, line, fate);
      DrainRecords(r.next, ports, accept, line, fate);
      var d := DrainSco(r.next, ports, accept);
      AgreeChain(b.c, r.moves, r.next.c, d.moves, d.next.c, line, fate);
    }
  }

  lemma HoldRecords(b: Bridge, p: Packet, line: Line, fate: Fate)
    requires Bounded(b)
    ensures Records(b, HoldCommand(b, p), line, fate)
  {
    PushMoves(Held, b.held, Overwritten, p, line, fate);
  }

  lemma OtherCommandRecords(b: Bridge, ports: Ports, p: Packet, ok: bool, line: Line, fate: Fate)
    requires !FramedCommand(p) || b.ready
    ensures Records(b, DoSubmitCommand(b, ports, p, ok), line, fate)
  {
  }

  lemma SubmitCommandRecords(b: Bridge, ports: Ports, p: Packet, ok: bool, line: Line, fate: Fate)
    requires Bounded(b)
    ensures Records(b, DoSubmitCommand(b, ports, p, ok), line, fate)
  {
    if FramedCommand(p) && !b.ready {
      HoldRecords(b, p, line, fate);
    } else {
      OtherCommandRecords(b, ports, p, ok, line, fate);
    }
  }

  lemma SubmitAclRecords(b: Bridge, ports: Ports, p: Packet, ok: bool, line: Line, fate: Fate)
    ensures Records(b, DoSubmitAcl(b, ports, p, ok), line, fate)
  {
  }

  lemma VoiceQueuedRecords(b: Bridge, p: Packet, fate: Fate)
    ensures Records(b, QueueSco(b, p), ScoOut, fate)
  {
    PushMoves(ScoOut, b.scoOut[..Surplus(b.scoOut)], Overwritten, p, ScoOut, fate);
  }

  lemma QueueScoRecords(b: Bridge, p: Packet, line: Line, fate: Fate)
    ensures Records(b, QueueSco(b, p), line, fate)
  {
    if line == ScoOut {
      VoiceQueuedRecords(b, p, fate);
    } else {
      PushMoves(ScoOut, b.scoOut[..Surplus(b.scoOut)], Overwritten, p, line, fate);
      assert Enrolled(QueueSco(b, p).next.c, line) == Enrolled(b.c, line);
      assert Booked(QueueSco(b, p).next.c, line, fate) == Booked(b.c, line, fate);
    }
  }

  lemma SubmitScoRecords(b: Bridge, ports: Ports, p: Packet, accept: nat, line: Line, fate: Fate)
    ensures Records(b, DoSubmitSco(b, ports, p, accept), line, fate)
  {
    if ScoPacket.WellFormed(p) && b.ready {
      var q := QueueSco(b, p);
      QueueScoRecords(b, p, line, fate);
      DrainRecords(q.next, ports, accept, line, fate);
      var d := DrainSco(q.next, ports, accept);
      AgreeChain(b.c, q.moves, q.next.c, d.moves, d.next.c, line, fate);
    }
  }

  lemma PopEventRecords(b: Bridge, capacity: nat, line: Line, fate: Fate)
    ensures Records(b, PopEvent(b, capacity), line, fate)
  {
  }

  lemma PopAclRecords(b: Bridge, capacity: nat, line: Line, fate: Fate)
    ensures Records(b, PopAcl(b, capacity), line, fate)
  {
  }

  lemma PopScoRecords(b: Bridge, capacity: nat, line: Line, fate: Fate)
    ensures Records(b, PopSco(b, capacity), line, fate)
  {
  }

  lemma PopRecords(b: Bridge, stream: Stream, capacity: nat, line: Line, fate: Fate)
    ensures Records(b, DoPopStream(b, stream, capacity), line, fate)
  {
    match stream
    case EventStream => PopEventRecords(b, capacity, line, fate);
    case AclStream => PopAclRecords(b, capacity, line, fate);
    case ScoStream => PopScoRecords(b, capacity, line, fate);
  }

  lemma ResetRecords(b: Bridge, line: Line, fate: Fate)
    ensures Records(b, DoReset(b), line, fate)
  {
    FlushMoves(Queues(b), line, fate);
  }

  lemma OnEventRecords(b: Bridge, p: Packet, line: Line, fate: Fate)
    ensures Records(b, DoOnEvent(b, p), line, fate)
  {
  }

  lemma OnAclRecords(b: Bridge, p: Packet, line: Line, fate: Fate)
    ensures Records(b, DoOnAcl(b, p), line, fate)
  {
  }

  lemma KeepScoRecords(b: Bridge, p: Packet, line: Line, fate: Fate)
    ensures Records(b, KeepSco(b, p), line, fate)
  {
    PushMoves(ScoIn, b.scoIn[..Surplus(b.scoIn)], Overwritten, p, line, fate);
  }

  lemma OnScoRecords(b: Bridge, p: Packet, line: Line, fate: Fate)
    ensures Records(b, DoOnSco(b, p), line, fate)
  {
    KeepScoRecords(b, p, line, fate);
  }

  predicate Outbound(o: Op) {
    o.SetReady? || o.SubmitCommand? || o.SubmitAcl? || o.SubmitSco? || o.Drain?
  }

  lemma OutboundRecords(b: Bridge, ports: Ports, o: Op, line: Line, fate: Fate)
    requires Bounded(b) && Outbound(o)
    ensures Records(b, Perform(b, ports, o), line, fate)
  {
    match o
    case SetReady(ready, commandOk, accept) => SetReadyRecords(b, ports, ready, commandOk, accept, line, fate);
    case SubmitCommand(p, ok) => SubmitCommandRecords(b, ports, p, ok, line, fate);
    case SubmitAcl(p, ok) => SubmitAclRecords(b, ports, p, ok, line, fate);
    case SubmitSco(p, accept) => SubmitScoRecords(b, ports, p, accept, line, fate);
    case Drain(accept) => DrainRecords(b, ports, accept, line, fate);
  }

  lemma OpRecords(b: Bridge, ports: Ports, o: Op, line: Line, fate: Fate)
    requires Bounded(b)
    ensures Records(b, Perform(b, ports, o), line, fate)
  {
    match o
    case PopStream(stream, capacity) => PopRecords(b, stream, capacity, line, fate);
    case Reset => ResetRecords(b, line, fate);
    case OnEvent(p) => OnEventRecords(b, p, line, fate);
    case OnAcl(p) => OnAclRecords(b, p, line, fate);
    case OnSco(p) => OnScoRecords(b, p, line, fate);
    case _ => OutboundRecords(b, ports, o, line, fate);
  }

  /**
   Each queue counter is exactly the number of packets that met that fate; in particular no event and no
   ACL packet is ever overwritten or discarded, and voice only for want of room or of buffer.
   */
  lemma {:induction false} CountersAreExact(b: Bridge, ports: Ports, ops: seq<Op>, line: Line, fate: Fate)
    requires Bounded(b)
    ensures var r := PerformAll(b, ports, ops); Agree(b.c, r.moves, r.last.c, line, fate)
    decreases |ops|
  {
    if ops != [] {
      var o := Perform(b, ports, ops[0]);
      OpRecords(b, ports, ops[0], line, fate);
      OpKeepsBounds(b, ports, ops[0]);
      CountersAreExact(o.next, ports, ops[1..], line, fate);
      var r := PerformAll(o.next, ports, ops[1..]);
      AgreeChain(b.c, o.moves, o.next.c, r.moves, r.last.c, line, fate);
    }
  }

  /* ---------------------------------------------------------------- counters against each other */

  /** Everything submitted or received is in exactly one outcome counter. */
  predicate Balanced(c: Counters, ports: Ports) {
    && c.event.received == c.event.queued + c.event.suppressedVendor + c.event.notReady + c.event.fifoFull
    && c.aclIn.received == c.aclIn.queued + c.aclIn.notReady + c.aclIn.fifoFull
    && c.scoIn.received == c.scoIn.queued + c.scoIn.notReady
    && (ports.command ==>
          c.command.submitted + c.command.replayed == c.command.held + c.command.sentToWire + c.command.failedWire)
    && (ports.acl ==>
          c.aclOut.submitted == c.aclOut.sentToWire + c.aclOut.notReady + c.aclOut.noCredit
                                + c.aclOut.wireFailed + c.aclOut.noHandleSlot)
  }

  lemma OutboundBalances(b: Bridge, ports: Ports, o: Op)
    requires Balanced(b.c, ports) && Outbound(o)
    ensures Balanced(Perform(b, ports, o).next.c, ports)
  {
  }

  lemma InboundBalances(b: Bridge, ports: Ports, o: Op)
    requires Balanced(b.c, ports) && !Outbound(o)
    ensures Balanced(Perform(b, ports, o).next.c, ports)
  {
  }

  lemma {:induction false} AlwaysBalanced(b: Bridge, ports: Ports, ops: seq<Op>)
    requires Balanced(b.c, ports)
    ensures Balanced(PerformAll(b, ports, ops).last.c, ports)
    decreases |ops|
  {
    if ops != [] {
      if Outbound(ops[0]) {
        OutboundBalances(b, ports, ops[0]);
      } else {
        InboundBalances(b, ports, ops[0]);
      }
      AlwaysBalanced(Perform(b, ports, ops[0]).next, ports, ops[1..]);
    }
  }

  /** Until a reset, the host gets exactly the queued events and ACL packets, in order. */
  predicate Reliable(line: Line) {
    line == Events || line == AclIn
  }

  lemma {:induction false} FatesCover(moves: seq<Move<Packet>>, line: Line)
    ensures |LeftOn(moves, line)|
            == Count(moves, line, Delivered) + Count(moves, line, Overwritten) + Count(moves, line, Oversize)
               + Count(moves, line, Flushed)
    decreases |moves|
  {
    if moves != [] {
      FatesCover(moves[1..], line);
    }
  }

  lemma {:induction false} NoResetNoFlush(b: Bridge, ports: Ports, ops: seq<Op>, line: Line)
    requires forall i :: 0 <= i < |ops| ==> ops[i] != Reset
    ensures Count(PerformAll(b, ports, ops).moves, line, Flushed) == 0
    decreases |ops|
  {
    if ops != [] {
      var o := Perform(b, ports, ops[0]);
      NoFlushInOp(b, ports, ops[0], line);
      NoResetNoFlush(o.next, ports, ops[1..], line);
      CountAppend(o.moves, PerformAll(o.next, ports, ops[1..]).moves, line, Flushed);
    }
  }

  lemma PopNoFlush(b: Bridge, stream: Stream, capacity: nat, line: Line)
    ensures Count(DoPopStream(b, stream, capacity).moves, line, Flushed) == 0
  {
    var q := DoPopStream(b, stream, capacity);
    if q.moves != [] {
      OneMove(q.moves[0], line, Flushed);
    }
  }

  lemma NoFlushInOp(b: Bridge, ports: Ports, o: Op, line: Line)
    requires o != Reset
    ensures Count(Perform(b, ports, o).moves, line, Flushed) == 0
  {
    match o
    case SetReady(ready, commandOk, accept) => SetReadyNoFlush(b, ports, ready, commandOk, accept, line);
    case SubmitCommand(p, ok) => PushMoves(Held, b.held, Overwritten, p, line, Flushed);
    case SubmitAcl(p, ok) =>
    case SubmitSco(p, accept) => SubmitScoNoFlush(b, ports, p, accept, line);
    case Drain(accept) => DrainNoFlush(b, ports, accept, line);
    case PopStream(stream, capacity) => PopNoFlush(b, stream, capacity, line);
    case OnEvent(p) => OneMove(Entered(Events, p), line, Flushed);
    case OnAcl(p) => OneMove(Entered(AclIn, p), line, Flushed);
    case OnSco(p) => PushMoves(ScoIn, b.scoIn[..Surplus(b.scoIn)], Overwritten, p, line, Flushed);
  }

  lemma SetReadyNoFlush(b: Bridge, ports: Ports, ready: bool, commandOk: bool, accept: nat, line: Line)
    ensures Count(DoSetReady(b, ports, ready, commandOk, accept).moves, line, Flushed) == 0
  {
    if !b.ready && ready {
      var r := Replay(b.(ready := true), ports, commandOk);
      LeaveMoves(Held, b.held, Delivered, line, Flushed);
      DrainNoFlush(r.next, ports, accept, line);
      CountAppend(r.moves, DrainSco(r.next, ports, accept).moves, line, Flushed);
    }
  }

  lemma DrainNoFlush(b: Bridge, ports: Ports, accept: nat, line: Line)
    ensures Count(DrainSco(b, ports, accept).moves, line, Flushed) == 0
  {
    var n := if ports.sco then Min(accept, |b.scoOut|) else 0;
    LeaveMoves(ScoOut, b.scoOut[..n], Delivered, line, Flushed);
  }

  lemma SubmitScoNoFlush(b: Bridge, ports: Ports, p: Packet, accept: nat, line: Line)
    ensures Count(DoSubmitSco(b, ports, p, accept).moves, line, Flushed) == 0
  {
    if ScoPacket.WellFormed(p) && b.ready {
      var q := QueueSco(b, p);
      PushMoves(ScoOut, b.scoOut[..Surplus(b.scoOut)], Overwritten, p, line, Flushed);
      DrainNoFlush(q.next, ports, accept, line);
      CountAppend(q.moves, DrainSco(q.next, ports, accept).moves, line, Flushed);
    }
  }

  /** From power-up and until a reset, events and ACL packets are delivered in order and none is missing. */
  lemma NothingMissing(ports: Ports, ops: seq<Op>, line: Line)
    requires Reliable(line)
    requires forall i :: 0 <= i < |ops| ==> ops[i] != Reset
    ensures var r := PerformAll(FRESH, ports, ops);
            && EnteredOn(r.moves, line) == LeftOn(r.moves, line) + Queue(r.last, line)
            && |LeftOn(r.moves, line)| == Count(r.moves, line, Delivered)
  {
    var r := PerformAll(FRESH, ports, ops);
    QueuesConserve(FRESH, ports, ops, line);
    NoResetNoFlush(FRESH, ports, ops, line);
    CountersAreExact(FRESH, ports, ops, line, Overwritten);
    CountersAreExact(FRESH, ports, ops, line, Oversize);
    FatesCover(r.moves, line);
    assert [] + EnteredOn(r.moves, line) == EnteredOn(r.moves, line);
  }

  /** What was queued on a line has left in one of four ways or still waits; three of them may be counted. */
  predicate LineAccounted(r: Ran, line: Line) {
    && Enrolled(r.last.c, line)
       == Count(r.moves, line, Delivered) + Count(r.moves, line, Overwritten)
          + Count(r.moves, line, Oversize) + Count(r.moves, line, Flushed) + |Queue(r.last, line)|
    && (Counted(line, Delivered) ==> Booked(r.last.c, line, Delivered) == Count(r.moves, line, Delivered))
    && Booked(r.last.c, line, Overwritten) == Count(r.moves, line, Overwritten)
    && Booked(r.last.c, line, Oversize) == Count(r.moves, line, Oversize)
  }

  lemma LineIsAccounted(ports: Ports, ops: seq<Op>, line: Line)
    ensures LineAccounted(PerformAll(FRESH, ports, ops), line)
  {
    var r := PerformAll(FRESH, ports, ops);
    QueuesConserve(FRESH, ports, ops, line);
    FatesCover(r.moves, line);
    CountersAreExact(FRESH, ports, ops, line, Delivered);
    CountersAreExact(FRESH, ports, ops, line, Overwritten);
    CountersAreExact(FRESH, ports, ops, line, Oversize);
    assert |[] + EnteredOn(r.moves, line)| == |LeftOn(r.moves, line) + Queue(r.last, line)|;
  }

  /** The identities between the counters of a run and what is queued at its end. */
  predicate Accounted(r: Ran) {
    var b, c := r.last, r.last.c;
    && c.scoOut.submitted == c.scoOut.notReady + c.scoOut.sentToWire + c.scoOut.overwrites
                             + |b.scoOut| + Count(r.moves, ScoOut, Flushed)
    && c.command.held == c.command.heldOverwritten + c.command.replayed
                         + |b.held| + Count(r.moves, Held, Flushed)
    && c.scoIn.queued == Count(r.moves, ScoIn, Delivered) + c.scoIn.overwrites + c.scoIn.oversize
                         + |b.scoIn| + Count(r.moves, ScoIn, Flushed)
    && c.event.queued == Count(r.moves, Events, Delivered) + |b.events| + Count(r.moves, Events, Flushed)
    && c.aclIn.queued == Count(r.moves, AclIn, Delivered) + |b.aclIn| + Count(r.moves, AclIn, Flushed)
  }

  lemma LinesMakeAccount(r: Ran)
    requires LineAccounted(r, ScoOut) && LineAccounted(r, Held) && LineAccounted(r, ScoIn)
    requires LineAccounted(r, Events) && LineAccounted(r, AclIn)
    ensures Accounted(r)
  {
  }

  /**
   Nothing is unaccounted for. Over every run from a fresh bridge, what each queue's counters admitted is what
   was delivered, overwritten or discarded, what a reset flushed, and what still waits.
   */
  lemma NothingUnaccounted(ports: Ports, ops: seq<Op>)
    ensures Accounted(PerformAll(FRESH, ports, ops))
  {
    LineIsAccounted(ports, ops, ScoOut);
    LineIsAccounted(ports, ops, Held);
    LineIsAccounted(ports, ops, ScoIn);
    LineIsAccounted(ports, ops, Events);
    LineIsAccounted(ports, ops, AclIn);
    LinesMakeAccount(PerformAll(FRESH, ports, ops));
  }

  /** What waits on a voice queue is the newest voice: at most seven packets came after any of it. */
  lemma VoiceIsFresh(ports: Ports, ops: seq<Op>, line: Line)
    requires line == ScoIn || line == ScoOut
    ensures var r := PerformAll(FRESH, ports, ops);
            var all, q := EnteredOn(r.moves, line), Queue(r.last, line);
            |q| <= SCO_DEPTH && |q| <= |all| && q == all[|all| - |q|..]
  {
    var r := PerformAll(FRESH, ports, ops);
    QueuesConserve(FRESH, ports, ops, line);
    assert [] + EnteredOn(r.moves, line) == EnteredOn(r.moves, line);
  }

  /** An event a host may see: well framed, and neither vendor chatter nor a vendor command's answer. */
  predicate ForHost(p: Packet) {
    FramedEvent(p) && p[0] != 0xFF && !VendorReply(p)
  }

  /** What an operation lets into a line. */
  function Admitted(b: Bridge, o: Op, line: Line): seq<Packet> {
    match o
    case SubmitCommand(p, _) => if line == Held && FramedCommand(p) && !b.ready then [p] else []
    case SubmitSco(p, _) => if line == ScoOut && ScoPacket.WellFormed(p) && b.ready then [p] else []
    case OnEvent(p) =>
      if line == Events && ForHost(p) && b.ready && |b.events| < 16 then [p] else []
    case OnAcl(p) =>
      if line == AclIn && FramedAcl(p) && b.ready && |b.aclIn| < 8 then [p] else []
    case OnSco(p) => if line == ScoIn && ScoPacket.WellFormed(p) && b.ready then [p] else []
    case _ => []
  }

  lemma DrainEntersNothing(b: Bridge, ports: Ports, accept: nat, line: Line)
    ensures EnteredOn(DrainSco(b, ports, accept).moves, line) == []
  {
    var n := if ports.sco then Min(accept, |b.scoOut|) else 0;
    LeaveMoves(ScoOut, b.scoOut[..n], Delivered, line, Delivered);
  }

  lemma SetReadyEntersNothing(b: Bridge, ports: Ports, ready: bool, commandOk: bool, accept: nat, line: Line)
    ensures EnteredOn(DoSetReady(b, ports, ready, commandOk, accept).moves, line) == []
  {
    if !b.ready && ready {
      var r := Replay(b.(ready := true), ports, commandOk);
      LeaveMoves(Held, b.held, Delivered, line, Delivered);
      DrainEntersNothing(r.next, ports, accept, line);
      EnteredAppend(r.moves, DrainSco(r.next, ports, accept).moves, line);
    }
  }

  lemma SubmitScoEnters(b: Bridge, ports: Ports, p: Packet, accept: nat, line: Line)
    ensures EnteredOn(DoSubmitSco(b, ports, p, accept).moves, line) == Admitted(b, SubmitSco(p, accept), line)
  {
    if ScoPacket.WellFormed(p) && b.ready {
      var q := QueueSco(b, p);
      PushMoves(ScoOut, b.scoOut[..Surplus(b.scoOut)], Overwritten, p, line, Delivered);
      DrainEntersNothing(q.next, ports, accept, line);
      EnteredAppend(q.moves, DrainSco(q.next, ports, accept).moves, line);
    }
  }

  lemma PopEntersNothing(b: Bridge, stream: Stream, capacity: nat, line: Line)
    ensures EnteredOn(DoPopStream(b, stream, capacity).moves, line) == []
  {
  }

  lemma InboundEnters(b: Bridge, ports: Ports, o: Op, line: Line)
    requires o.OnEvent? || o.OnAcl? || o.OnSco?
    ensures EnteredOn(Perform(b, ports, o).moves, line) == Admitted(b, o, line)
  {
    if o.OnSco? {
      PushMoves(ScoIn, b.scoIn[..Surplus(b.scoIn)], Overwritten, o.p, line, Delivered);
    } else {
      OneMove(Entered(if o.OnEvent? then Events else AclIn, o.p), line, Delivered);
    }
  }

  /** Admission is exact: a packet joins a line if and only if it passes that line's own checks. */
  lemma AdmissionIsExact(b: Bridge, ports: Ports, o: Op, line: Line)
    ensures EnteredOn(Perform(b, ports, o).moves, line) == Admitted(b, o, line)
  {
    match o
    case SetReady(ready, commandOk, accept) => SetReadyEntersNothing(b, ports, ready, commandOk, accept, line);
    case SubmitCommand(p, ok) => PushMoves(Held, b.held, Overwritten, p, line, Delivered);
    case SubmitAcl(p, ok) =>
    case SubmitSco(p, accept) => SubmitScoEnters(b, ports, p, accept, line);
    case Drain(accept) => DrainEntersNothing(b, ports, accept, line);
    case PopStream(stream, capacity) => PopEntersNothing(b, stream, capacity, line);
    case Reset => FlushMoves(Queues(b), line, Delivered);
    case _ => InboundEnters(b, ports, o, line);
  }

  /** Whatever may ever wait on a line. */
  predicate Admissible(line: Line, p: Packet) {
    match line
    case Held => FramedCommand(p)
    case Events => ForHost(p)
    case AclIn => FramedAcl(p)
    case ScoIn => ScoPacket.WellFormed(p)
    case ScoOut => ScoPacket.WellFormed(p)
  }

  /**
   Over every run only admissible packets are ever queued; in particular boot chatter never reaches the
   host, ready or not, whatever else the controller sends.
   */
  lemma {:induction false} OnlyAdmissibleWait(b: Bridge, ports: Ports, ops: seq<Op>, line: Line)
    ensures forall p <- EnteredOn(PerformAll(b, ports, ops).moves, line) :: Admissible(line, p)
    decreases |ops|
  {
    if ops != [] {
      var o := Perform(b, ports, ops[0]);
      AdmissionIsExact(b, ports, ops[0], line);
      OnlyAdmissibleWait(o.next, ports, ops[1..], line);
      EnteredAppend(o.moves, PerformAll(o.next, ports, ops[1..]).moves, line);
    }
  }

  lemma OpHoldsNothing(b: Bridge, ports: Ports, o: Op)
    requires b.ready ==> b.held == []
    ensures var n := Perform(b, ports, o).next; n.ready ==> n.held == []
  {
  }

  /** Hold-then-replay: a ready bridge never sits on a command. */
  lemma {:induction false} ReadyHoldsNothing(ports: Ports, b: Bridge, ops: seq<Op>)
    requires b.ready ==> b.held == []
    ensures var n := PerformAll(b, ports, ops).last; n.ready ==> n.held == []
    decreases |ops|
  {
    if ops != [] {
      OpHoldsNothing(b, ports, ops[0]);
      ReadyHoldsNothing(ports, Perform(b, ports, ops[0]).next, ops[1..]);
    }
  }

  /**
   The bridge's framing checks are the wire format of the H4 decoder: exactly the packets that decoder can
   emit pass, but for ACL packets, where the bridge allows three bytes more.
   */
  lemma DecodedPacketsAreFramed(p: Packet)
    ensures H4Spec.Legal(1, p) <==> FramedCommand(p)
    ensures H4Spec.Legal(2, p) <==> FramedAcl(p) && |p| <= 1025
    ensures H4Spec.Legal(3, p) <==> ScoPacket.WellFormed(p)
    ensures H4Spec.Legal(4, p) <==> FramedEvent(p)
    ensures FramedAcl(p) <==> |p| >= 4 && |p| - 4 == p[2] as int + 256 * (p[3] as int) <= 1024
  {
  }

  /**
   What the host is never shown, byte for byte: vendor events (0xFF) and the Command Complete (0x0E) and
   Command Status (0x0F) of an opcode whose upper byte is 0xFC or more.
   */
  lemma ChatterIsVendor(p: Packet)
    requires FramedEvent(p)
    ensures ForHost(p) <==> !(|| p[0] == 0xFF
                              || (p[0] == 0x0E && |p| >= 5 && p[4] >= 0xFC)
                              || (p[0] == 0x0F && |p| >= 6 && p[5] >= 0xFC))
  {
  }

  /* ---------------------------------------------------------------- credits */

  /** What an operation does to the credit pool. */
  function CreditSteps(b: Bridge, ports: Ports, o: Op): seq<Step> {
    match o
    case SubmitAcl(p, ok) =>
      if FramedAcl(p) && b.ready && b.pool.available > 0 && HasSlot(b.pool.table, Handle12(p[0], p[1])) then
        [if ports.acl && ok then Sent(Handle12(p[0], p[1])) else Refused(Handle12(p[0], p[1]))]
      else []
    case OnEvent(p) => if FramedEvent(p) && p[0] != 0xFF then Reports(p) else []
    case Reset => [Cleared]
    case _ => []
  }

  function AllCreditSteps(b: Bridge, ports: Ports, ops: seq<Op>): seq<Step>
    decreases |ops|
  {
    if ops == [] then []
    else CreditSteps(b, ports, ops[0]) + AllCreditSteps(Perform(b, ports, ops[0]).next, ports, ops[1..])
  }

  lemma OpCredits(b: Bridge, ports: Ports, o: Op)
    ensures Runs(b.pool, CreditSteps(b, ports, o))
    ensures Perform(b, ports, o).next.pool == Run(b.pool, CreditSteps(b, ports, o))
  {
    var steps := CreditSteps(b, ports, o);
    if o.OnEvent? && steps != [] {
      ReportsCanRun(b.pool, steps);
    } else if steps != [] {
      assert steps[1..] == [];
    }
  }

  lemma {:induction false} PoolFollowsBridge(b: Bridge, ports: Ports, ops: seq<Op>)
    ensures Runs(b.pool, AllCreditSteps(b, ports, ops))
    ensures PerformAll(b, ports, ops).last.pool == Run(b.pool, AllCreditSteps(b, ports, ops))
    decreases |ops|
  {
    if ops != [] {
      var next := Perform(b, ports, ops[0]).next;
      OpCredits(b, ports, ops[0]);
      PoolFollowsBridge(next, ports, ops[1..]);
      RunAppend(b.pool, CreditSteps(b, ports, ops[0]), AllCreditSteps(next, ports, ops[1..]));
    }
  }

  /**
   In every run of the bridge, under any stream of controller events: credits are never minted, and the
   table's account of every handle is that handle's own history.
   */
  lemma BridgeCredits(ports: Ports, ops: seq<Op>, h: u16)
    ensures var pool, steps := PerformAll(FRESH, ports, ops).last.pool, AllCreditSteps(FRESH, ports, ops);
            && Sound(pool)
            && Lookup(pool.table, h) == Owed(steps, h)
            && pool.total == Told(steps)
  {
    var steps := AllCreditSteps(FRESH, ports, ops);
    PoolFollowsBridge(FRESH, ports, ops);
    StartIsExact(0);
    CreditsConserved(START, steps, 0);
    TableIsLedger(steps, h);
  }

  /** While every buffer count reported is n, no credit is ever lost: available plus in flight is the total. */
  lemma BridgeCreditsExact(ports: Ports, ops: seq<Op>, n: u16)
    requires var steps := AllCreditSteps(FRESH, ports, ops);
             forall i :: 0 <= i < |steps| && steps[i].Learned? ==> steps[i].n == n
    ensures Exact(PerformAll(FRESH, ports, ops).last.pool, n)
  {
    PoolFollowsBridge(FRESH, ports, ops);
    StartIsExact(n);
    CreditsConserved(START, AllCreditSteps(FRESH, ports, ops), n);
  }
}
