/**
 Who may touch the serial target, and when it may be closed (src/driver/qca_uart.c): a state machine
 over the atomic steps of the detached worker, any number of concurrent cancellers, asynchronous
 writers, and read and write completions. The lower stack is an adversary: it completes an accepted
 request inline, late or never, and refuses requests at will.
 */
module UartLifetime {
  type Id = nat

  datatype Kind = Read | Write(slot: nat)

  /**
   Counted activities, each worth one of ActiveIoCount until it leaves. Sending: counted, inside
   WdfRequestSend; Rearming: a read completion sending the next read; Tail: only the final
   QcaUartIoCompleted remains; Leaving: it has decremented and still holds TargetLock.
   */
  datatype Role =
    | Sending(kind: Kind)
    | InFlight(kind: Kind)
    | Callback(kind: Kind)
    | Rearming(next: Id)
    | Purging(target: nat)
    | Tail
    | Leaving

  /** The front end's writer: at most one, because it holds the controller lock throughout. */
  datatype Writer =
    | NoWriter
    | Preparing
    | Chosen(slot: nat)
    | Submitted(slot: nat, request: Id, refused: bool)

  datatype Worker =
    | Shut
    | Serving
    | StartingRead(request: Id)
    | PhaseRetired
    | OwnPurge(purge: Id)
    | Stopped
    | Drained

  const WRITE_SLOTS := 4

  /**
   next is the number of activities so far, used as their names; targets the number of targets opened
   so far; cancelTarget: the open one can still be claimed; purged: the targets purged, in order.
   */
  datatype Uart = Uart(
    active: nat, agents: map<Id, Role>, next: Id, targetLock: set<Id>,
    phase: nat, writer: Writer, busy: set<nat>,
    worker: Worker, targets: nat, cancelTarget: bool, purged: seq<nat>)

  const INITIAL := Uart(0, map[], 0, {}, 0, NoWriter, {}, Shut, 0, false, [])

  datatype Step =
    | Open
    | SetPhase(phase: nat)
    | StartRead
    | StartReadReturns
    | WriteEnter
    | WriteTakeSlot(slot: nat)
    | WriteGiveUp
    | WriteCount
    | WriteReturns
    | Accept(r: Id)
    | Refuse(r: Id)
    | Complete(r: Id)
    | FreeSlot(r: Id)
    | Rearm(r: Id)
    | RearmReturns(r: Id)
    | EndPump(r: Id)
    | Claim
    | PurgeReturns(c: Id)
    | Exit(x: Id)
    | Unlock(x: Id)
    | StopPhase
    | StopClaim
    | StopReturns
    | SeeIdle
    | Free

  predicate Is(s: Uart, a: Id, r: Role) {
    a in s.agents && s.agents[a] == r
  }

  predicate SendOver(s: Uart, r: Id) {
    r !in s.agents || !s.agents[r].Sending?
  }

  predicate LockFree(s: Uart) {
    s.targetLock == {}
  }

  predicate Enabled(s: Uart, a: Step) {
    match a
    case Open => s.worker == Shut && LockFree(s)
    case SetPhase(_) => s.worker == Serving && s.writer == NoWriter
    case StartRead => s.worker == Serving && LockFree(s)
    case StartReadReturns => s.worker.StartingRead? && SendOver(s, s.worker.request)
    case WriteEnter => s.writer == NoWriter && s.phase == 2
    case WriteTakeSlot(k) => s.writer == Preparing && k < WRITE_SLOTS && k !in s.busy
    case WriteGiveUp => s.writer == Preparing || s.writer.Chosen?
    case WriteCount => s.writer.Chosen? && LockFree(s)
    case WriteReturns => s.writer.Submitted? && SendOver(s, s.writer.request)
    case Accept(r) => r in s.agents && s.agents[r].Sending?
    case Refuse(r) => r in s.agents && s.agents[r].Sending? && LockFree(s)
    case Complete(r) => r in s.agents && s.agents[r].InFlight?
    case FreeSlot(r) => r in s.agents && s.agents[r].Callback? && s.agents[r].kind.Write?
    case Rearm(r) => Is(s, r, Callback(Read)) && LockFree(s)
    case RearmReturns(r) => r in s.agents && s.agents[r].Rearming? && SendOver(s, s.agents[r].next)
    case EndPump(r) => Is(s, r, Callback(Read))
    case Claim => s.cancelTarget && LockFree(s)
    case PurgeReturns(c) => c in s.agents && s.agents[c].Purging?
    case Exit(x) => Is(s, x, Tail) && LockFree(s)
    case Unlock(x) => Is(s, x, Leaving)
    case StopPhase => (s.worker == Serving || s.worker == Stopped) && s.writer == NoWriter
    case StopClaim => s.worker == PhaseRetired && LockFree(s)
    case StopReturns => s.worker.OwnPurge? && s.worker.purge !in s.agents
    case SeeIdle => s.worker == Stopped && s.active == 0 && LockFree(s)
    case Free => s.worker == Drained
  }

  function Put(s: Uart, a: Id, r: Role): Uart {
    s.(agents := s.agents[a := r])
  }

  /** QcaUartSendTimed and QcaUartPurgeTarget count under TargetLock before they act. */
  function Count(s: Uart, r: Role): Uart {
    s.(agents := s.agents[s.next := r], next := s.next + 1, active := s.active + 1)
  }

  /** QcaUartIoCompleted: decrement, then signal, all under TargetLock. */
  function Decrement(s: Uart, a: Id): Uart {
    s.(agents := s.agents[a := Leaving], targetLock := {a}, active := if s.active > 0 then s.active - 1 else 0)
  }

  function Purge(s: Uart): Uart {
    Count(s, Purging(s.targets)).(cancelTarget := false, purged := s.purged + [s.targets])
  }

  function Apply(s: Uart, a: Step): Uart
    requires Enabled(s, a)
  {
    match a
    case Open => s.(worker := Serving, targets := s.targets + 1, cancelTarget := true)
    case SetPhase(p) => s.(phase := p)
    case StartRead => Count(s, Sending(Read)).(worker := StartingRead(s.next))
    case StartReadReturns => s.(worker := Serving)
    case WriteEnter => s.(writer := Preparing)
    case WriteTakeSlot(k) => s.(writer := Chosen(k), busy := s.busy + {k})
    case WriteGiveUp =>
      s.(writer := NoWriter, busy := if s.writer.Chosen? then s.busy - {s.writer.slot} else s.busy)
    case WriteCount =>
      Count(s, Sending(Write(s.writer.slot))).(writer := Submitted(s.writer.slot, s.next, false))
    case WriteReturns =>
      s.(writer := NoWriter, busy := if s.writer.refused then s.busy - {s.writer.slot} else s.busy)
    case Accept(r) => Put(s, r, InFlight(s.agents[r].kind))
    case Refuse(r) =>
      var d := Decrement(s, r);
      if s.writer.Submitted? && s.writer.request == r then d.(writer := s.writer.(refused := true)) else d
    case Complete(r) => Put(s, r, Callback(s.agents[r].kind))
    case FreeSlot(r) => Put(s, r, Tail).(busy := s.busy - {s.agents[r].kind.slot})
    case Rearm(r) => Put(Count(s, Sending(Read)), r, Rearming(s.next))
    case RearmReturns(r) => Put(s, r, Tail)
    case EndPump(r) => Put(s, r, Tail)
    case Claim => Purge(s)
    case PurgeReturns(c) => Put(s, c, Tail)
    case Exit(x) => Decrement(s, x)
    case Unlock(x) => s.(agents := s.agents - {x}, targetLock := {})
    case StopPhase => s.(phase := 3, worker := PhaseRetired)
    case StopClaim => if s.cancelTarget then Purge(s).(worker := OwnPurge(s.next)) else s.(worker := Stopped)
    case StopReturns => s.(worker := Stopped)
    case SeeIdle => s.(worker := Drained)
    case Free => s.(worker := Shut)
  }

  /* ---------------------------------------------------------------- the invariant */

  function Counted(m: map<Id, Role>): set<Id> {
    set x | x in m && m[x] != Leaving
  }

  /** ActiveIoCount is the number of counted activities; at most one activity is inside TargetLock. */
  ghost predicate AgentsExact(s: Uart) {
    && s.active == |Counted(s.agents)|
    && (forall x :: x in s.agents ==> x < s.next)
    && (forall x :: x in s.targetLock ==> Is(s, x, Leaving))
    && (forall x :: x in s.agents && s.agents[x] == Leaving ==> s.targetLock == {x})
  }

  predicate Retired(w: Worker) {
    w == PhaseRetired || w.OwnPurge? || w == Stopped || w == Drained || w == Shut
  }

  predicate Gone(w: Worker) {
    w == Drained || w == Shut
  }

  /** What each stage of the worker's stop has closed off. */
  predicate StageHolds(s: Uart) {
    && (Retired(s.worker) ==> s.phase != 2 && s.writer == NoWriter)
    && (s.cancelTarget ==> s.targets > 0 && (s.worker == Serving || s.worker.StartingRead? || s.worker == PhaseRetired))
    && (Gone(s.worker) ==> s.agents == map[])
  }

  function Upto(n: nat): (r: seq<nat>)
    ensures |r| == n && forall i :: 0 <= i < n ==> r[i] == i + 1
  {
    seq(n, i requires 0 <= i < n => i + 1)
  }

  /** Targets are purged in the order they were opened; only the open one may still await its purge. */
  predicate PurgesExact(s: Uart) {
    && (s.cancelTarget ==> s.targets > 0)
    && s.purged == Upto(s.targets - if s.cancelTarget then 1 else 0)
  }

  predicate UsesSlot(r: Role, k: nat) {
    (r.Sending? || r.InFlight? || r.Callback?) && r.kind == Write(k)
  }

  ghost predicate SlotFree(s: Uart, k: nat) {
    forall x :: x in s.agents ==> !UsesSlot(s.agents[x], k)
  }

  /** A write slot's buffer has one user at a time, from filling it to its completion. */
  ghost predicate SlotsExclusive(s: Uart) {
    && (forall x, k :: x in s.agents && UsesSlot(s.agents[x], k) ==> k in s.busy)
    && (forall x, y, k :: x in s.agents && y in s.agents && UsesSlot(s.agents[x], k) && UsesSlot(s.agents[y], k)
                          ==> x == y)
    && (s.writer.Chosen? ==> s.writer.slot in s.busy && SlotFree(s, s.writer.slot))
    && (s.writer.Submitted? ==>
          && s.writer.request < s.next
          && (s.writer.refused ==>
                s.writer.slot in s.busy && SlotFree(s, s.writer.slot) && SendOver(s, s.writer.request))
          && (!SendOver(s, s.writer.request) ==> s.agents[s.writer.request].kind == Write(s.writer.slot)))
  }

  ghost predicate Inv(s: Uart) {
    AgentsExact(s) && StageHolds(s) && PurgesExact(s) && SlotsExclusive(s)
  }

  lemma InitialInv()
    ensures Inv(INITIAL)
  {
  }

  lemma CountedPut(m: map<Id, Role>, k: Id, v: Role)
    ensures Counted(m[k := v]) == if v == Leaving then Counted(m) - {k} else Counted(m) + {k}
  {
  }

  lemma PutExact(s: Uart, a: Id, r: Role)
    requires AgentsExact(s) && a in s.agents && s.agents[a] != Leaving && r != Leaving
    ensures AgentsExact(Put(s, a, r))
  {
    CountedPut(s.agents, a, r);
    assert Counted(s.agents) + {a} == Counted(s.agents);
  }

  lemma CountMore(s: Uart, r: Role)
    requires AgentsExact(s) && r != Leaving
    ensures AgentsExact(Count(s, r))
  {
    CountedPut(s.agents, s.next, r);
  }

  lemma DecrementExact(s: Uart, a: Id)
    requires AgentsExact(s) && LockFree(s) && a in s.agents && s.agents[a] != Leaving
    ensures AgentsExact(Decrement(s, a)) && s.active > 0
  {
    CountedPut(s.agents, a, Leaving);
    assert a in Counted(s.agents);
  }

  lemma UnlockExact(s: Uart, x: Id)
    requires AgentsExact(s) && Is(s, x, Leaving)
    ensures AgentsExact(s.(agents := s.agents - {x}, targetLock := {}))
  {
    assert Counted(s.agents - {x}) == Counted(s.agents);
  }

  lemma AgentsKept(s: Uart, a: Step)
    requires AgentsExact(s) && Enabled(s, a)
    ensures AgentsExact(Apply(s, a))
  {
    match a {
      case StartRead => CountMore(s, Sending(Read));
      case WriteCount => CountMore(s, Sending(Write(s.writer.slot)));
      case Accept(r) => PutExact(s, r, InFlight(s.agents[r].kind));
      case Refuse(r) => DecrementExact(s, r);
      case Complete(r) => PutExact(s, r, Callback(s.agents[r].kind));
      case FreeSlot(r) => PutExact(s, r, Tail);
      case Rearm(r) =>
        CountMore(s, Sending(Read));
        PutExact(Count(s, Sending(Read)), r, Rearming(s.next));
      case RearmReturns(r) => PutExact(s, r, Tail);
      case EndPump(r) => PutExact(s, r, Tail);
      case Claim => CountMore(s, Purging(s.targets));
      case PurgeReturns(c) => PutExact(s, c, Tail);
      case Exit(x) => DecrementExact(s, x);
      case Unlock(x) => UnlockExact(s, x);
      case StopClaim => CountMore(s, Purging(s.targets));
      case _ =>
    }
  }

  /** With TargetLock free, a zero count means that nothing at all is left, not even a late signal. */
  lemma ZeroIsEmpty(s: Uart)
    requires AgentsExact(s) && LockFree(s) && s.active == 0
    ensures s.agents == map[]
  {
  }

  /** The steps of the worker's own life, from opening a target to freeing it. */
  predicate MovesWorker(a: Step) {
    a.Open? || a.StartRead? || a.StartReadReturns? || a.StopPhase? || a.StopClaim? || a.StopReturns? || a.Free?
  }

  lemma StageMoved(s: Uart, a: Step)
    requires StageHolds(s) && Enabled(s, a) && MovesWorker(a)
    ensures StageHolds(Apply(s, a))
  {
  }

  lemma StageCarriedOn(s: Uart, a: Step)
    requires StageHolds(s) && Enabled(s, a) && a != SeeIdle && !MovesWorker(a)
    ensures StageHolds(Apply(s, a))
  {
  }

  lemma StageKept(s: Uart, a: Step)
    requires StageHolds(s) && AgentsExact(s) && Enabled(s, a)
    ensures StageHolds(Apply(s, a))
  {
    if a == SeeIdle {
      ZeroIsEmpty(s);
    } else if MovesWorker(a) {
      StageMoved(s, a);
    } else {
      StageCarriedOn(s, a);
    }
  }

  lemma PurgesCarriedOn(s: Uart, a: Step)
    requires PurgesExact(s) && Enabled(s, a) && !a.Open? && !a.Claim? && !a.StopClaim?
    ensures PurgesExact(Apply(s, a))
  {
  }

  lemma PurgesKept(s: Uart, a: Step)
    requires StageHolds(s) && PurgesExact(s) && Enabled(s, a)
    ensures PurgesExact(Apply(s, a))
  {
    if !a.Open? && !a.Claim? && !a.StopClaim? {
      PurgesCarriedOn(s, a);
    } else if s.cancelTarget {
      assert Upto(s.targets - 1) + [s.targets] == Upto(s.targets);
    }
  }

  lemma SlotsPut(s: Uart, a: Id, r: Role)
    requires SlotsExclusive(s) && a in s.agents && !r.Sending?
    requires forall k :: UsesSlot(r, k) ==> UsesSlot(s.agents[a], k)
    ensures SlotsExclusive(Put(s, a, r))
  {
  }

  lemma SlotsCount(s: Uart, r: Role)
    requires SlotsExclusive(s) && AgentsExact(s)
    requires forall k :: !UsesSlot(r, k)
    ensures SlotsExclusive(Count(s, r))
  {
  }

  lemma SlotsFreed(s: Uart, r: Id)
    requires SlotsExclusive(s) && Enabled(s, FreeSlot(r))
    ensures SlotsExclusive(Apply(s, FreeSlot(r)))
  {
  }

  lemma SlotsWrite(s: Uart, a: Step)
    requires SlotsExclusive(s) && AgentsExact(s) && Enabled(s, a)
    requires a.WriteTakeSlot? || a.WriteGiveUp? || a.WriteCount? || a.WriteReturns?
    ensures SlotsExclusive(Apply(s, a))
  {
  }

  lemma SlotsRefused(s: Uart, r: Id)
    requires SlotsExclusive(s) && AgentsExact(s) && Enabled(s, Refuse(r))
    ensures SlotsExclusive(Apply(s, Refuse(r)))
  {
  }

  lemma SlotsCompleted(s: Uart, a: Step)
    requires SlotsExclusive(s) && Enabled(s, a)
    requires a.Accept? || a.Complete? || a.RearmReturns? || a.EndPump? || a.PurgeReturns? || a.Exit? || a.Unlock?
    ensures SlotsExclusive(Apply(s, a))
  {
    match a {
      case Accept(r) => SlotsPut(s, r, InFlight(s.agents[r].kind));
      case Complete(r) => SlotsPut(s, r, Callback(s.agents[r].kind));
      case RearmReturns(r) => SlotsPut(s, r, Tail);
      case EndPump(r) => SlotsPut(s, r, Tail);
      case PurgeReturns(c) => SlotsPut(s, c, Tail);
      case Exit(x) => SlotsPut(s, x, Leaving);
      case Unlock(x) =>
    }
  }

  predicate WritesSlot(a: Step) {
    a.WriteTakeSlot? || a.WriteGiveUp? || a.WriteCount? || a.WriteReturns?
  }

  predicate EndsActivity(a: Step) {
    a.Accept? || a.Complete? || a.RearmReturns? || a.EndPump? || a.PurgeReturns? || a.Exit? || a.Unlock?
  }

  predicate CountsMore(a: Step) {
    a.StartRead? || a.Claim? || a.StopClaim? || a.Rearm?
  }

  lemma SlotsCounted(s: Uart, a: Step)
    requires SlotsExclusive(s) && AgentsExact(s) && Enabled(s, a) && CountsMore(a)
    ensures SlotsExclusive(Apply(s, a))
  {
    if a.Rearm? {
      SlotsCount(s, Sending(Read));
      SlotsPut(Count(s, Sending(Read)), a.r, Rearming(s.next));
    } else {
      SlotsCount(s, if a.StartRead? then Sending(Read) else Purging(s.targets));
    }
  }

  lemma SlotsCarriedOn(s: Uart, a: Step)
    requires SlotsExclusive(s) && Enabled(s, a)
    requires !WritesSlot(a) && !EndsActivity(a) && !CountsMore(a) && !a.FreeSlot? && !a.Refuse?
    ensures SlotsExclusive(Apply(s, a))
  {
  }

  lemma SlotsKept(s: Uart, a: Step)
    requires SlotsExclusive(s) && AgentsExact(s) && Enabled(s, a)
    ensures SlotsExclusive(Apply(s, a))
  {
    if WritesSlot(a) {
      SlotsWrite(s, a);
    } else if a.FreeSlot? {
      SlotsFreed(s, a.r);
    } else if a.Refuse? {
      SlotsRefused(s, a.r);
    } else if CountsMore(a) {
      SlotsCounted(s, a);
    } else if EndsActivity(a) {
      SlotsCompleted(s, a);
    } else {
      SlotsCarriedOn(s, a);
    }
  }

  lemma StepKeeps(s: Uart, a: Step)
    requires Inv(s) && Enabled(s, a)
    ensures Inv(Apply(s, a))
  {
    AgentsKept(s, a);
    StageKept(s, a);
    PurgesKept(s, a);
    SlotsKept(s, a);
  }

  /* ---------------------------------------------------------------- no slot is lost */

  ghost predicate UsedByActivity(s: Uart, k: nat) {
    exists x :: x in s.agents && UsesSlot(s.agents[x], k)
  }

  /** The writer is filling the slot, or has been refused and is about to give it back. */
  predicate UsedByWriter(w: Writer, k: nat) {
    w == Chosen(k) || (w.Submitted? && w.slot == k && w.refused)
  }

  /** Whoever sends a write is waited for by the writer, so a refusal always finds it. */
  predicate SendersAwaited(s: Uart) {
    forall x :: x in s.agents && s.agents[x].Sending? && s.agents[x].kind.Write? ==>
      s.writer == Submitted(s.agents[x].kind.slot, x, false)
  }

  /** No slot stays busy without a user: the converse of exclusivity. */
  ghost predicate SlotsAccounted(s: Uart) {
    && SendersAwaited(s)
    && forall k :: k in s.busy ==> k < WRITE_SLOTS && (UsedByActivity(s, k) || UsedByWriter(s.writer, k))
  }

  lemma PutKeepsUser(s: Uart, a: Id, r: Role, k: nat)
    requires a in s.agents && UsedByActivity(s, k) && (UsesSlot(s.agents[a], k) ==> UsesSlot(r, k))
    ensures UsedByActivity(Put(s, a, r), k)
  {
    var x :| x in s.agents && UsesSlot(s.agents[x], k);
    var t := Put(s, a, r);
    assert x in t.agents && UsesSlot(t.agents[x], k);
  }

  /** An activity changes its role, keeping the slots it uses or giving up one that is freed with it. */
  lemma AccountPut(s: Uart, t: Uart, a: Id, r: Role, freed: set<nat>)
    requires SlotsAccounted(s) && a in s.agents && !r.Sending?
    requires t.agents == s.agents[a := r] && t.writer == s.writer && t.busy == s.busy - freed
    requires forall k :: UsesSlot(s.agents[a], k) ==> UsesSlot(r, k) || k in freed
    ensures SlotsAccounted(t)
  {
    forall k | k in t.busy && UsedByActivity(s, k) ensures UsedByActivity(t, k) {
      PutKeepsUser(s, a, r, k);
      var x :| x in Put(s, a, r).agents && UsesSlot(Put(s, a, r).agents[x], k);
      assert x in t.agents && UsesSlot(t.agents[x], k);
    }
  }

  /** A new activity is counted; a write's takes over the slot from the writer. */
  lemma AccountCount(s: Uart, t: Uart, r: Role)
    requires SlotsAccounted(s) && AgentsExact(s)
    requires t.agents == s.agents[s.next := r] && t.busy == s.busy
    requires if r.Sending? && r.kind.Write? then
               s.writer == Chosen(r.kind.slot) && t.writer == Submitted(r.kind.slot, s.next, false)
             else
               t.writer == s.writer && forall k :: !UsesSlot(r, k)
    ensures SlotsAccounted(t)
  {
    forall k | k in t.busy ensures UsedByActivity(t, k) || UsedByWriter(t.writer, k) {
      if UsedByActivity(s, k) {
        var x :| x in s.agents && UsesSlot(s.agents[x], k);
        assert x in t.agents && UsesSlot(t.agents[x], k);
      } else {
        assert s.next in t.agents && t.agents[s.next] == r;
      }
    }
  }

  /** A refused write's slot is the writer's to give back. */
  lemma AccountRefused(s: Uart, r: Id)
    requires SlotsAccounted(s) && Enabled(s, Refuse(r))
    ensures SlotsAccounted(Apply(s, Refuse(r)))
  {
    var t := Apply(s, Refuse(r));
    forall k | k in t.busy && UsedByActivity(s, k) ensures UsedByActivity(t, k) || UsedByWriter(t.writer, k) {
      var x :| x in s.agents && UsesSlot(s.agents[x], k);
      if x != r {
        assert x in t.agents && UsesSlot(t.agents[x], k);
      }
    }
  }

  lemma AccountUnlock(s: Uart, x: Id)
    requires SlotsAccounted(s) && Enabled(s, Unlock(x))
    ensures SlotsAccounted(Apply(s, Unlock(x)))
  {
    var t := Apply(s, Unlock(x));
    forall k | k in t.busy && UsedByActivity(s, k) ensures UsedByActivity(t, k) {
      var y :| y in s.agents && UsesSlot(s.agents[y], k);
      assert y in t.agents && UsesSlot(t.agents[y], k);
    }
  }

  /** The activities stay as they are; the writer moves on, taking up and giving back its own slot only. */
  lemma AccountWriter(s: Uart, a: Step)
    requires SlotsAccounted(s) && Enabled(s, a)
    requires a.WriteEnter? || a.WriteTakeSlot? || a.WriteGiveUp? || a.WriteReturns?
    ensures SlotsAccounted(Apply(s, a))
  {
    var t := Apply(s, a);
    forall k | k in t.busy && UsedByActivity(s, k) ensures UsedByActivity(t, k) {
      var x :| x in s.agents && UsesSlot(s.agents[x], k);
      assert x in t.agents && UsesSlot(t.agents[x], k);
    }
  }

  lemma AccountUntouched(s: Uart, t: Uart)
    requires SlotsAccounted(s) && t.agents == s.agents && t.writer == s.writer && t.busy == s.busy
    ensures SlotsAccounted(t)
  {
    forall k | k in t.busy && UsedByActivity(s, k) ensures UsedByActivity(t, k) {
      var x :| x in s.agents && UsesSlot(s.agents[x], k);
      assert x in t.agents && UsesSlot(t.agents[x], k);
    }
  }

  lemma AccountRearmed(s: Uart, r: Id)
    requires SlotsAccounted(s) && AgentsExact(s) && Enabled(s, Rearm(r))
    ensures SlotsAccounted(Apply(s, Rearm(r)))
  {
    var c := Count(s, Sending(Read));
    AccountCount(s, c, Sending(Read));
    AccountPut(c, Apply(s, Rearm(r)), r, Rearming(s.next), {});
  }

  lemma AccountKept(s: Uart, a: Step)
    requires SlotsAccounted(s) && SlotsExclusive(s) && AgentsExact(s) && Enabled(s, a)
    ensures SlotsAccounted(Apply(s, a))
  {
    var t := Apply(s, a);
    match a {
      case StartRead => AccountCount(s, t, Sending(Read));
      case WriteEnter => AccountWriter(s, a);
      case WriteTakeSlot(_) => AccountWriter(s, a);
      case WriteGiveUp => AccountWriter(s, a);
      case WriteCount => AccountCount(s, t, Sending(Write(s.writer.slot)));
      case WriteReturns => AccountWriter(s, a);
      case Accept(r) => AccountPut(s, t, r, InFlight(s.agents[r].kind), {});
      case Refuse(r) => AccountRefused(s, r);
      case Complete(r) => AccountPut(s, t, r, Callback(s.agents[r].kind), {});
      case FreeSlot(r) => AccountPut(s, t, r, Tail, {s.agents[r].kind.slot});
      case Rearm(r) => AccountRearmed(s, r);
      case RearmReturns(r) => AccountPut(s, t, r, Tail, {});
      case EndPump(r) => AccountPut(s, t, r, Tail, {});
      case Claim => AccountCount(s, t, Purging(s.targets));
      case PurgeReturns(c) => AccountPut(s, t, c, Tail, {});
      case Exit(x) => AccountPut(s, t, x, Leaving, {});
      case Unlock(x) => AccountUnlock(s, x);
      case StopClaim =>
        if s.cancelTarget {
          AccountCount(s, t, Purging(s.targets));
        } else {
          AccountUntouched(s, t);
        }
      case _ => AccountUntouched(s, t);
    }
  }

  /* ---------------------------------------------------------------- every run */

  predicate Runs(s: Uart, steps: seq<Step>)
    decreases |steps|
  {
    steps == [] || (Enabled(s, steps[0]) && Runs(Apply(s, steps[0]), steps[1..]))
  }

  function Run(s: Uart, steps: seq<Step>): Uart
    requires Runs(s, steps)
    decreases |steps|
  {
    if steps == [] then s else Run(Apply(s, steps[0]), steps[1..])
  }

  lemma {:induction false} RunKeeps(s: Uart, steps: seq<Step>)
    requires Inv(s) && Runs(s, steps)
    ensures Inv(Run(s, steps))
    decreases |steps|
  {
    if steps != [] {
      StepKeeps(s, steps[0]);
      RunKeeps(Apply(s, steps[0]), steps[1..]);
    }
  }

  lemma {:induction false} RunAccounts(s: Uart, steps: seq<Step>)
    requires Inv(s) && SlotsAccounted(s) && Runs(s, steps)
    ensures SlotsAccounted(Run(s, steps))
    decreases |steps|
  {
    if steps != [] {
      StepKeeps(s, steps[0]);
      AccountKept(s, steps[0]);
      RunAccounts(Apply(s, steps[0]), steps[1..]);
    }
  }

  /**
   In every interleaving: ActiveIoCount is exactly the requests being sent or in flight, the callbacks
   still running and the purge borrowers. The target is closed and freed only when nothing of all that,
   no late completion signal and no writer is left; every target opened is purged once, in order, and
   never more often; a write slot's buffer belongs to one activity at a time, and a slot is busy only
   while an activity or the writer uses it, so all are free in the end.
   */
  lemma LifetimeSafe(steps: seq<Step>)
    requires Runs(INITIAL, steps)
    ensures var s := Run(INITIAL, steps);
            && s.active == |Counted(s.agents)|
            && (Gone(s.worker) ==>
                  && s.agents == map[] && s.active == 0 && s.targetLock == {} && s.writer == NoWriter
                  && s.purged == Upto(s.targets))
            && (forall i, j :: 0 <= i < j < |s.purged| ==> s.purged[i] < s.purged[j])
            && (s.writer.Chosen? ==> SlotFree(s, s.writer.slot))
            && SlotsExclusive(s)
            && (forall k :: k in s.busy ==> UsedByActivity(s, k) || UsedByWriter(s.writer, k))
            && (Gone(s.worker) ==> s.busy == {})
            && (s.writer == Preparing ==> forall k: nat :: Enabled(s, WriteTakeSlot(k)) <==> k < 4 && k !in s.busy)
  {
    InitialInv();
    RunKeeps(INITIAL, steps);
    RunAccounts(INITIAL, steps);
  }

  /** After QcaUartStop, with nothing left counted: no claim, no writer and no phase to start one. */
  predicate Quiet(s: Uart) {
    Retired(s.worker) && !s.cancelTarget && s.active == 0
  }

  lemma QuietKept(s: Uart, a: Step)
    requires Inv(s) && Quiet(s) && Enabled(s, a) && a != Open
    ensures Quiet(Apply(s, a))
  {
    assert Counted(s.agents) == {};
    forall x | x in s.agents ensures s.agents[x] == Leaving {
      assert x !in Counted(s.agents);
    }
  }

  lemma {:induction false} QuietRun(s: Uart, steps: seq<Step>)
    requires Inv(s) && Quiet(s) && Runs(s, steps)
    requires forall i :: 0 <= i < |steps| ==> steps[i] != Open
    ensures Quiet(Run(s, steps))
    decreases |steps|
  {
    if steps != [] {
      QuietKept(s, steps[0]);
      StepKeeps(s, steps[0]);
      QuietRun(Apply(s, steps[0]), steps[1..]);
    }
  }

  /**
   Zero is stable: once QcaUartStop has returned and the count is zero, nothing but opening a target
   again can raise it, so the worker's drain loop ends for good.
   */
  lemma ZeroIsStable(before: seq<Step>, after: seq<Step>)
    requires Runs(INITIAL, before) && Run(INITIAL, before).worker == Stopped && Run(INITIAL, before).active == 0
    requires Runs(Run(INITIAL, before), after)
    requires forall i :: 0 <= i < |after| ==> after[i] != Open
    ensures Run(Run(INITIAL, before), after).active == 0
    ensures Retired(Run(Run(INITIAL, before), after).worker)
  {
    InitialInv();
    RunKeeps(INITIAL, before);
    QuietRun(Run(INITIAL, before), after);
  }

  /* ---------------------------------------------------------------- the stop goes through */

  /** What an activity still has to do until it is gone. */
  function Left(r: Role): nat {
    match r
    case Sending(_) => 6
    case InFlight(_) => 5
    case Callback(_) => 4
    case Rearming(_) => 3
    case Purging(_) => 3
    case Tail => 2
    case Leaving => 1
  }

  /** The same for all activities named below n. */
  function LeftBelow(m: map<Id, Role>, n: nat): nat {
    if n == 0 then 0 else LeftBelow(m, n - 1) + if n - 1 in m then Left(m[n - 1]) else 0
  }

  lemma {:induction false} LeftPut(m: map<Id, Role>, k: map<Id, Role>, a: Id, n: nat)
    requires forall x :: x != a ==> (x in m <==> x in k) && (x in m ==> m[x] == k[x])
    ensures LeftBelow(k, n) + (if a < n && a in m then Left(m[a]) else 0)
            == LeftBelow(m, n) + (if a < n && a in k then Left(k[a]) else 0)
  {
    if n > 0 {
      LeftPut(m, k, a, n - 1);
    }
  }

  function WorkerLeft(w: Worker): nat {
    match w
    case StartingRead(_) => 7
    case Serving => 6
    case PhaseRetired => 5
    case OwnPurge(_) => 4
    case Stopped => 3
    case Drained => 2
    case Shut => 1
  }

  function WriterLeft(w: Writer): nat {
    if w == NoWriter then 0 else 1
  }

  /** The activity itself, or the read it is just sending. */
  function Mover(s: Uart, a: Id): Id
    requires a in s.agents
  {
    if s.agents[a].Rearming? && !SendOver(s, s.agents[a].next) then s.agents[a].next else a
  }

  /** What an activity does next when the lower stack takes every request and completes it. */
  function ActivityOnward(s: Uart, a: Id): Step
    requires a in s.agents
  {
    match s.agents[a]
    case Sending(_) => Accept(a)
    case InFlight(_) => Complete(a)
    case Callback(Read) => EndPump(a)
    case Callback(Write(_)) => FreeSlot(a)
    case Rearming(_) => RearmReturns(a)
    case Purging(_) => PurgeReturns(a)
    case Tail => Exit(a)
    case Leaving => Unlock(a)
  }

  /** What the writer, or without one the worker, does next once all activities are gone. */
  function StopOnward(s: Uart): Step {
    if s.writer.Submitted? then WriteReturns
    else if s.writer != NoWriter then WriteGiveUp
    else
      match s.worker
      case StartingRead(_) => StartReadReturns
      case Serving => StopPhase
      case PhaseRetired => StopClaim
      case OwnPurge(_) => StopReturns
      case Stopped => SeeIdle
      case Drained => Free
      case Shut => Open
  }

  predicate Smaller(t: Uart, s: Uart) {
    || WorkerLeft(t.worker) < WorkerLeft(s.worker)
    || (WorkerLeft(t.worker) == WorkerLeft(s.worker)
        && (|| WriterLeft(t.writer) < WriterLeft(s.writer)
            || (WriterLeft(t.writer) == WriterLeft(s.writer)
                && LeftBelow(t.agents, t.next) < LeftBelow(s.agents, s.next))))
  }

  lemma ActivityEnabled(s: Uart, x: Id)
    requires AgentsExact(s) && x in s.agents
    requires s.targetLock != {} ==> s.targetLock == {x}
    ensures var a := Mover(s, x); a in s.agents && Enabled(s, ActivityOnward(s, a))
  {
  }

  lemma ActivityOnlyMoves(s: Uart, a: Id)
    requires AgentsExact(s) && a in s.agents && Enabled(s, ActivityOnward(s, a))
    ensures var t := Apply(s, ActivityOnward(s, a));
            && t.worker == s.worker && t.writer == s.writer && t.next == s.next && t.targets == s.targets
            && (a in t.agents ==> Left(t.agents[a]) < Left(s.agents[a]))
  {
  }

  lemma ActivityMovesAlone(s: Uart, a: Id, x: Id)
    requires AgentsExact(s) && a in s.agents && Enabled(s, ActivityOnward(s, a)) && x != a
    ensures var t := Apply(s, ActivityOnward(s, a));
            (x in s.agents <==> x in t.agents) && (x in s.agents ==> s.agents[x] == t.agents[x])
  {
  }

  lemma ActivityGoesOn(s: Uart, a: Id)
    requires AgentsExact(s) && a in s.agents && Enabled(s, ActivityOnward(s, a))
    ensures Smaller(Apply(s, ActivityOnward(s, a)), s)
  {
    var t := Apply(s, ActivityOnward(s, a));
    ActivityOnlyMoves(s, a);
    forall x | x != a
      ensures (x in s.agents <==> x in t.agents) && (x in s.agents ==> s.agents[x] == t.agents[x])
    {
      ActivityMovesAlone(s, a, x);
    }
    LeftPut(s.agents, t.agents, a, s.next);
  }

  /** The activity inside TargetLock, or with the lock free any other. */
  lemma NextToMove(s: Uart) returns (x: Id)
    requires AgentsExact(s) && s.agents != map[]
    ensures x in s.agents && (s.targetLock != {} ==> s.targetLock == {x})
  {
    if s.targetLock != {} {
      x :| x in s.targetLock;
    } else {
      x :| x in s.agents;
    }
  }

  lemma StopGoesOn(s: Uart)
    requires Inv(s) && s.agents == map[] && s.worker != Shut
    ensures Enabled(s, StopOnward(s)) && Smaller(Apply(s, StopOnward(s)), s)
    ensures Apply(s, StopOnward(s)).targets == s.targets
  {
    assert Counted(s.agents) == {};
  }

  lemma FirstStep(s: Uart, a: Step, later: seq<Step>)
    requires Enabled(s, a) && Runs(Apply(s, a), later)
    ensures Runs(s, [a] + later) && Run(s, [a] + later) == Run(Apply(s, a), later)
  {
    assert ([a] + later)[1..] == later;
  }

  /** From any state, if the lower stack completes what it was given, everything can be wound up. */
  lemma {:induction false} WindsUp(s: Uart) returns (steps: seq<Step>)
    requires Inv(s)
    ensures Runs(s, steps) && Run(s, steps).worker == Shut && Run(s, steps).targets == s.targets
    decreases WorkerLeft(s.worker), WriterLeft(s.writer), LeftBelow(s.agents, s.next)
  {
    if s.worker == Shut {
      return [];
    }
    var a;
    if s.agents == map[] {
      a := StopOnward(s);
      StopGoesOn(s);
    } else {
      var x := NextToMove(s);
      a := ActivityOnward(s, Mover(s, x));
      ActivityEnabled(s, x);
      ActivityGoesOn(s, Mover(s, x));
      ActivityOnlyMoves(s, Mover(s, x));
    }
    StepKeeps(s, a);
    var later := WindsUp(Apply(s, a));
    FirstStep(s, a, later);
    steps := [a] + later;
  }

  lemma {:induction false} RunAppend(s: Uart, a: seq<Step>, b: seq<Step>)
    requires Runs(s, a) && Runs(Run(s, a), b)
    ensures Runs(s, a + b) && Run(s, a + b) == Run(Run(s, a), b)
    decreases |a|
  {
    if a == [] {
      assert a + b == b;
    } else {
      assert (a + b)[0] == a[0] && (a + b)[1..] == a[1..] + b;
      RunAppend(Apply(s, a[0]), a[1..], b);
    }
  }

  /**
   The stop always goes through. Whatever has happened so far, if the lower stack completes the requests
   it was given, the worker can stop and free the target: then nothing is counted, every write slot is
   free and every target ever opened has been purged.
   */
  lemma StopCompletes(before: seq<Step>) returns (steps: seq<Step>)
    requires Runs(INITIAL, before)
    ensures Runs(INITIAL, before + steps)
    ensures var s, t := Run(INITIAL, before), Run(INITIAL, before + steps);
            && t.worker == Shut && t.targets == s.targets
            && t.active == 0 && t.busy == {} && t.purged == Upto(s.targets)
  {
    InitialInv();
    RunKeeps(INITIAL, before);
    steps := WindsUp(Run(INITIAL, before));
    RunAppend(INITIAL, before, steps);
    LifetimeSafe(before + steps);
  }
}
