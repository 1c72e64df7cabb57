/**
 The bridge between the USB front end and the controller on values (src/common/hci_bridge.c): which
 packets are queued, held, sent, suppressed or dropped, and what each counter records of it.
 */
module BridgeSpec {
  import opened Bytes
  import opened CreditSpec
  import opened MoveLog
  import ScoPacket

  type Packet = seq<byte>

  const COMMAND_HEADER := 3
  const ACL_HEADER := 4
  const EVENT_HEADER := 2

  const EVENT_DEPTH := 16
  const ACL_DEPTH := 8
  const SCO_DEPTH := 8

  datatype CommandCounts = CommandCounts(
    submitted: nat, held: nat, heldOverwritten: nat, replayed: nat, sentToWire: nat, failedWire: nat, dropped: nat)

  datatype AclOutCounts = AclOutCounts(
    submitted: nat, sentToWire: nat, notReady: nat, noCredit: nat, wireFailed: nat, noHandleSlot: nat)

  datatype ScoOutCounts = ScoOutCounts(submitted: nat, sentToWire: nat, overwrites: nat, notReady: nat)

  datatype EventCounts = EventCounts(received: nat, queued: nat, suppressedVendor: nat, notReady: nat, fifoFull: nat)

  datatype AclInCounts = AclInCounts(received: nat, queued: nat, notReady: nat, fifoFull: nat)

  datatype ScoInCounts = ScoInCounts(received: nat, queued: nat, notReady: nat, overwrites: nat, oversize: nat)

  /** The diagnostic counters, one group for each kind of traffic. */
  datatype Counters = Counters(
    command: CommandCounts, aclOut: AclOutCounts, scoOut: ScoOutCounts,
    event: EventCounts, aclIn: AclInCounts, scoIn: ScoInCounts, resets: nat)

  const ZERO := Counters(CommandCounts(0, 0, 0, 0, 0, 0, 0), AclOutCounts(0, 0, 0, 0, 0, 0),
                         ScoOutCounts(0, 0, 0, 0), EventCounts(0, 0, 0, 0, 0), AclInCounts(0, 0, 0, 0),
                         ScoInCounts(0, 0, 0, 0, 0), 0)

  /** held holds the gated command, if there is one. */
  datatype Bridge = Bridge(
    ready: bool, held: seq<Packet>,
    events: seq<Packet>, aclIn: seq<Packet>, scoIn: seq<Packet>, scoOut: seq<Packet>,
    pool: Pool, c: Counters)

  const FRESH := Bridge(false, [], [], [], [], [], START, ZERO)

  /** Which of the wire's functions are bound. */
  datatype Ports = Ports(command: bool, acl: bool, sco: bool)

  datatype Stream = EventStream | AclStream | ScoStream

  /** An operation, with what the wire would answer; accept counts SCO packets it takes before refusing. */
  datatype Op =
    | SetReady(ready: bool, commandOk: bool, accept: nat)
    | SubmitCommand(p: Packet, ok: bool)
    | SubmitAcl(p: Packet, ok: bool)
    | SubmitSco(p: Packet, accept: nat)
    | Drain(accept: nat)
    | PopStream(stream: Stream, capacity: nat)
    | Reset
    | OnEvent(p: Packet)
    | OnAcl(p: Packet)
    | OnSco(p: Packet)

  datatype Outcome = Outcome(next: Bridge, ok: bool, moves: seq<Move<Packet>>)

  /* ---------------------------------------------------------------- framing */

  predicate FramedCommand(p: Packet) {
    |p| >= COMMAND_HEADER && |p| == COMMAND_HEADER + p[2] && |p| <= 258
  }

  predicate FramedAcl(p: Packet) {
    |p| >= ACL_HEADER && |p| == ACL_HEADER + Le16(p[2], p[3]) && |p| <= 1028
  }

  predicate FramedEvent(p: Packet) {
    |p| >= EVENT_HEADER && |p| == EVENT_HEADER + p[1] && |p| <= 260
  }

  /* ---------------------------------------------------------------- reading events */

  /** Where a list of n completions ends; each takes four bytes. */
  function CompletionsEnd(n: nat): nat {
    3 + 4 * n
  }

  function Completion(p: Packet, i: nat): Step
    requires CompletionsEnd(i + 1) <= |p|
  {
    Completed(Handle12(p[3 + 4 * i], p[4 + 4 * i]), Le16(p[5 + 4 * i], p[6 + 4 * i]))
  }

  function Completions(p: Packet, n: nat): (s: seq<Step>)
    requires CompletionsEnd(n) <= |p|
    ensures |s| == n && forall i :: 0 <= i < n ==> s[i] == Completion(p, i)
    decreases n
  {
    if n == 0 then [] else Completions(p, n - 1) + [Completion(p, n - 1)]
  }

  /** What an event says about credits: a buffer count, completed packets, or a closed link. */
  function Reports(p: Packet): seq<Step>
    requires |p| >= 2
  {
    if p[0] == 0x0E && |p| >= 13 && Le16(p[3], p[4]) == 0x1005 && p[5] == 0 then
      [Learned(Le16(p[9], p[10]))]
    else if p[0] == 0x13 && |p| >= 3 && |p| >= CompletionsEnd(p[2]) then Completions(p, p[2])
    else if p[0] == 0x05 && |p| >= 6 && p[2] == 0 then [Disconnected(Handle12(p[3], p[4]))]
    else []
  }

  /** Opcode group 0x3F. */
  predicate VendorOpcode(opcode: u16) {
    opcode / 0x400 == 0x3F
  }

  predicate VendorReply(p: Packet)
    requires |p| >= 2
  {
    || (p[0] == 0x0E && |p| >= 5 && VendorOpcode(Le16(p[3], p[4])))
    || (p[0] == 0x0F && |p| >= 6 && VendorOpcode(Le16(p[4], p[5])))
  }

  lemma {:induction false} ReportsCanRun(p: Pool, steps: seq<Step>)
    requires forall i :: 0 <= i < |steps| ==> !steps[i].Sent? && !steps[i].Refused?
    ensures Runs(p, steps)
    decreases |steps|
  {
    if steps != [] {
      ReportsCanRun(Apply(p, steps[0]), steps[1..]);
    }
  }

  function Snoop(pool: Pool, p: Packet): Pool
    requires |p| >= 2
  {
    ReportsCanRun(pool, Reports(p));
    Run(pool, Reports(p))
  }

  /* ---------------------------------------------------------------- operations */

  function Queues(b: Bridge): Waiting<Packet> {
    Waiting(b.held, b.events, b.aclIn, b.scoIn, b.scoOut)
  }

  function Queue(b: Bridge, line: Line): seq<Packet> {
    On(Queues(b), line)
  }

  /** Sends queued voice until the wire refuses a packet or none is left. */
  function DrainSco(b: Bridge, ports: Ports, accept: nat): Outcome {
    var n := if ports.sco then Min(accept, |b.scoOut|) else 0;
    var k := b.c.scoOut;
    Outcome(b.(scoOut := b.scoOut[n..], c := b.c.(scoOut := k.(sentToWire := k.sentToWire + n))),
            true, Leave(ScoOut, b.scoOut[..n], Delivered))
  }

  /** The wire is offered a command. */
  function Offer(k: CommandCounts, ports: Ports, ok: bool): CommandCounts {
    if !ports.command then k
    else if ok then k.(sentToWire := k.sentToWire + 1)
    else k.(failedWire := k.failedWire + 1)
  }

  function Replay(b: Bridge, ports: Ports, ok: bool): Outcome {
    if b.held == [] then Outcome(b, true, [])
    else
      var k := b.c.command;
      Outcome(b.(held := [], c := b.c.(command := Offer(k.(replayed := k.replayed + 1), ports, ok))),
              true, Leave(Held, b.held, Delivered))
  }

  function DoSetReady(b: Bridge, ports: Ports, ready: bool, commandOk: bool, accept: nat): Outcome {
    var now := b.(ready := ready);
    if b.ready || !ready then Outcome(now, true, [])
    else
      var r := Replay(now, ports, commandOk);
      var d := DrainSco(r.next, ports, accept);
      Outcome(d.next, true, r.moves + d.moves)
  }

  /** The one-deep hold slot: a second command overwrites the first. */
  function HoldCommand(b: Bridge, p: Packet): Outcome {
    var k := b.c.command;
    var over := if b.held == [] then 0 else 1;
    Outcome(b.(held := [p],
               c := b.c.(command := k.(submitted := k.submitted + 1, held := k.held + 1,
                                       heldOverwritten := k.heldOverwritten + over))),
            true, Leave(Held, b.held, Overwritten) + [Entered(Held, p)])
  }

  function DoSubmitCommand(b: Bridge, ports: Ports, p: Packet, ok: bool): Outcome {
    var k := b.c.command;
    if !FramedCommand(p) then Outcome(b.(c := b.c.(command := k.(dropped := k.dropped + 1))), false, [])
    else if !b.ready then HoldCommand(b, p)
    else
      Outcome(b.(c := b.c.(command := Offer(k.(submitted := k.submitted + 1), ports, ok))),
              ports.command && ok, [])
  }

  datatype AclOffer = AclOffer(counts: AclOutCounts, pool: Pool, ok: bool)

  /** A well-framed ACL packet needs readiness, a credit, a handle slot and the wire, in that order. */
  function OfferAcl(counts: AclOutCounts, pool: Pool, ready: bool, ports: Ports, h: u16, ok: bool): AclOffer {
    var k := counts.(submitted := counts.submitted + 1);
    if !ready then AclOffer(k.(notReady := k.notReady + 1), pool, false)
    else if pool.available == 0 then AclOffer(k.(noCredit := k.noCredit + 1), pool, false)
    else if !HasSlot(pool.table, h) then AclOffer(k.(noHandleSlot := k.noHandleSlot + 1), pool, false)
    else if !ports.acl then AclOffer(k, Apply(pool, Refused(h)), false)
    else if ok then AclOffer(k.(sentToWire := k.sentToWire + 1), Apply(pool, Sent(h)), true)
    else AclOffer(k.(wireFailed := k.wireFailed + 1), Apply(pool, Refused(h)), false)
  }

  function DoSubmitAcl(b: Bridge, ports: Ports, p: Packet, ok: bool): Outcome {
    if !FramedAcl(p) then Outcome(b, false, [])
    else
      var a := OfferAcl(b.c.aclOut, b.pool, b.ready, ports, Handle12(p[0], p[1]), ok);
      Outcome(b.(c := b.c.(aclOut := a.counts), pool := a.pool), a.ok, [])
  }

  /** Overwrite-oldest: how many packets a full voice queue gives up for the next one. */
  function Surplus(q: seq<Packet>): (n: nat)
    ensures n <= |q|
  {
    if |q| >= SCO_DEPTH then 1 else 0
  }

  /** An outbound voice packet joins the queue. */
  function QueueSco(b: Bridge, p: Packet): Outcome {
    var n := Surplus(b.scoOut);
    var k := b.c.scoOut;
    Outcome(b.(scoOut := b.scoOut[n..] + [p],
               c := b.c.(scoOut := k.(submitted := k.submitted + 1, overwrites := k.overwrites + n))),
            true, Leave(ScoOut, b.scoOut[..n], Overwritten) + [Entered(ScoOut, p)])
  }

  function DoSubmitSco(b: Bridge, ports: Ports, p: Packet, accept: nat): Outcome {
    if !ScoPacket.WellFormed(p) then Outcome(b, false, [])
    else if !b.ready then
      var k := b.c.scoOut;
      Outcome(b.(c := b.c.(scoOut := k.(submitted := k.submitted + 1, notReady := k.notReady + 1))), false, [])
    else
      var q := QueueSco(b, p);
      var d := DrainSco(q.next, ports, accept);
      Outcome(d.next, true, q.moves + d.moves)
  }

  function PopEvent(b: Bridge, capacity: nat): Outcome {
    if b.events == [] || |b.events[0]| > capacity then Outcome(b, false, [])
    else Outcome(b.(events := b.events[1..]), true, [Left(Events, b.events[0], Delivered)])
  }

  function PopAcl(b: Bridge, capacity: nat): Outcome {
    if b.aclIn == [] || |b.aclIn[0]| > capacity then Outcome(b, false, [])
    else Outcome(b.(aclIn := b.aclIn[1..]), true, [Left(AclIn, b.aclIn[0], Delivered)])
  }

  function PopSco(b: Bridge, capacity: nat): Outcome {
    if b.scoIn == [] then Outcome(b, false, [])
    else if |b.scoIn[0]| > capacity then
      Outcome(b.(scoIn := b.scoIn[1..], c := b.c.(scoIn := b.c.scoIn.(oversize := b.c.scoIn.oversize + 1))),
              false, [Left(ScoIn, b.scoIn[0], Oversize)])
    else Outcome(b.(scoIn := b.scoIn[1..]), true, [Left(ScoIn, b.scoIn[0], Delivered)])
  }

  /** Event and ACL packets too large for the host's buffer wait; a voice packet is discarded. */
  function DoPopStream(b: Bridge, stream: Stream, capacity: nat): Outcome {
    match stream
    case EventStream => PopEvent(b, capacity)
    case AclStream => PopAcl(b, capacity)
    case ScoStream => PopSco(b, capacity)
  }

  function DoReset(b: Bridge): Outcome {
    Outcome(b.(held := [], events := [], aclIn := [], scoIn := [], scoOut := [],
               pool := Apply(b.pool, Cleared), c := b.c.(resets := b.c.resets + 1)),
            true, FlushAll(Queues(b)))
  }

  datatype Verdict = Suppress | NotReady | Full | Accept

  /** Vendor chatter never reaches the host; anything else needs readiness and room. */
  function Judge(p: Packet, ready: bool, room: bool): Verdict
    requires |p| >= 2
  {
    if p[0] == 0xFF || VendorReply(p) then Suppress
    else if !ready then NotReady
    else if !room then Full
    else Accept
  }

  function NoteEvent(k: EventCounts, v: Verdict): EventCounts {
    var r := k.(received := k.received + 1);
    match v
    case Suppress => r.(suppressedVendor := k.suppressedVendor + 1)
    case NotReady => r.(notReady := k.notReady + 1)
    case Full => r.(fifoFull := k.fifoFull + 1)
    case Accept => r.(queued := k.queued + 1)
  }

  /** Credits are read off every event but a vendor one, whether or not the host will see it. */
  function DoOnEvent(b: Bridge, p: Packet): Outcome {
    if !FramedEvent(p) then Outcome(b, false, [])
    else
      var v := Judge(p, b.ready, |b.events| < EVENT_DEPTH);
      var s := b.(pool := if p[0] == 0xFF then b.pool else Snoop(b.pool, p),
                  c := b.c.(event := NoteEvent(b.c.event, v)));
      if v == Accept then Outcome(s.(events := b.events + [p]), true, [Entered(Events, p)])
      else Outcome(s, false, [])
  }

  /** An inbound ACL packet joins the queue. */
  function KeepAcl(b: Bridge, p: Packet): Outcome {
    var k := b.c.aclIn;
    Outcome(b.(aclIn := b.aclIn + [p],
               c := b.c.(aclIn := k.(received := k.received + 1, queued := k.queued + 1))),
            true, [Entered(AclIn, p)])
  }

  function DoOnAcl(b: Bridge, p: Packet): Outcome {
    var k := b.c.aclIn;
    if !FramedAcl(p) then Outcome(b, false, [])
    else if !b.ready then
      Outcome(b.(c := b.c.(aclIn := k.(received := k.received + 1, notReady := k.notReady + 1))), false, [])
    else if |b.aclIn| >= ACL_DEPTH then
      Outcome(b.(c := b.c.(aclIn := k.(received := k.received + 1, fifoFull := k.fifoFull + 1))), false, [])
    else KeepAcl(b, p)
  }

  /** An inbound voice packet joins the queue. */
  function KeepSco(b: Bridge, p: Packet): Outcome {
    var n := Surplus(b.scoIn);
    var k := b.c.scoIn;
    Outcome(b.(scoIn := b.scoIn[n..] + [p],
               c := b.c.(scoIn := k.(received := k.received + 1, overwrites := k.overwrites + n,
                                     queued := k.queued + 1))),
            true, Leave(ScoIn, b.scoIn[..n], Overwritten) + [Entered(ScoIn, p)])
  }

  function DoOnSco(b: Bridge, p: Packet): Outcome {
    if !ScoPacket.WellFormed(p) then Outcome(b, false, [])
    else if !b.ready then
      var k := b.c.scoIn;
      Outcome(b.(c := b.c.(scoIn := k.(received := k.received + 1, notReady := k.notReady + 1))), false, [])
    else KeepSco(b, p)
  }

  function Perform(b: Bridge, ports: Ports, o: Op): Outcome {
    match o
    case SetReady(ready, commandOk, accept) => DoSetReady(b, ports, ready, commandOk, accept)
    case SubmitCommand(p, ok) => DoSubmitCommand(b, ports, p, ok)
    case SubmitAcl(p, ok) => DoSubmitAcl(b, ports, p, ok)
    case SubmitSco(p, accept) => DoSubmitSco(b, ports, p, accept)
    case Drain(accept) => DrainSco(b, ports, accept)
    case PopStream(stream, capacity) => DoPopStream(b, stream, capacity)
    case Reset => DoReset(b)
    case OnEvent(p) => DoOnEvent(b, p)
    case OnAcl(p) => DoOnAcl(b, p)
    case OnSco(p) => DoOnSco(b, p)
  }

  datatype Ran = Ran(last: Bridge, moves: seq<Move<Packet>>)

  function PerformAll(b: Bridge, ports: Ports, ops: seq<Op>): Ran
    decreases |ops|
  {
    if ops == [] then Ran(b, [])
    else
      var o := Perform(b, ports, ops[0]);
      var r := PerformAll(o.next, ports, ops[1..]);
      Ran(r.last, o.moves + r.moves)
  }
}
