/**
 The one-shot pacing timer shared by transfers being accepted, ticks, flushes and cancellation
 (src/driver/endpoints.c), as a state machine over its atomic steps. Any number of threads accept
 transfers and flush at once; queue lengths may be read while transfers are being parked.
 */
module ScoTimer {
  type Tid = nat

  /** A tick from the timer firing to its decision; SawOut and SawBoth hold the controller lock. */
  datatype TickPc =
    | Fired
    | DrainingOut
    | DrainingIn
    | Checking
    | SawOut(out: bool)
    | SawBoth(out: bool, inn: bool)
    | Rearming

  /**
   pushing: transfers whose voice is queued but not parked yet; kicking: parked, kick still to come;
   starting: claimed the timer and about to start it. queued: the timer is set.
   */
  datatype Sys = Sys(
    ring: nat, outParked: nat, inParked: nat,
    armed: bool, queued: bool,
    pushing: set<Tid>, kicking: set<Tid>, starting: set<Tid>,
    ticks: map<Tid, TickPc>)

  datatype Step =
    | AcceptLocked(t: Tid, frames: nat)
    | ParkOut(t: Tid)
    | ParkIn(t: Tid)
    | ParkRefused(t: Tid)
    | Kick(t: Tid)
    | StartTimer(t: Tid)
    | Fire(k: Tid)
    | TickRelease(k: Tid, released: nat)
    | TickCompleteOut(k: Tid)
    | TickOutDone(k: Tid)
    | TickCompleteIn(k: Tid)
    | TickInDone(k: Tid)
    | TickReadOut(k: Tid)
    | TickReadIn(k: Tid)
    | TickDecide(k: Tid)
    | TickRearm(k: Tid)
    | CancelOut
    | CancelIn
    | FlushRing

  const RING_SLOTS := 128

  predicate Holding(pc: TickPc) {
    pc.SawOut? || pc.SawBoth?
  }

  predicate LockFree(s: Sys) {
    forall k :: k in s.ticks ==> !Holding(s.ticks[k])
  }

  predicate Known(s: Sys, t: Tid) {
    t in s.pushing || t in s.kicking || t in s.starting
  }

  predicate At(s: Sys, k: Tid, pc: TickPc) {
    k in s.ticks && s.ticks[k] == pc
  }

  predicate Enabled(s: Sys, a: Step) {
    match a
    case AcceptLocked(t, _) => !Known(s, t) && LockFree(s)
    case ParkOut(t) => t in s.pushing
    case ParkIn(t) => t in s.pushing
    case ParkRefused(t) => t in s.pushing
    case Kick(t) => t in s.kicking && LockFree(s)
    case StartTimer(t) => t in s.starting
    case Fire(k) => s.queued && k !in s.ticks
    case TickRelease(k, released) => At(s, k, Fired) && released <= s.ring && LockFree(s)
    case TickCompleteOut(k) => At(s, k, DrainingOut) && s.outParked > 0
    case TickOutDone(k) => At(s, k, DrainingOut)
    case TickCompleteIn(k) => At(s, k, DrainingIn) && s.inParked > 0
    case TickInDone(k) => At(s, k, DrainingIn)
    case TickReadOut(k) => At(s, k, Checking) && LockFree(s)
    case TickReadIn(k) => k in s.ticks && s.ticks[k].SawOut?
    case TickDecide(k) => k in s.ticks && s.ticks[k].SawBoth?
    case TickRearm(k) => At(s, k, Rearming)
    case CancelOut => s.outParked > 0
    case CancelIn => s.inParked > 0
    case FlushRing => LockFree(s)
  }

  function Move(s: Sys, k: Tid, pc: TickPc): (r: Sys)
    ensures r.ticks.Keys == s.ticks.Keys + {k}
  {
    s.(ticks := s.ticks[k := pc])
  }

  function Apply(s: Sys, a: Step): Sys
    requires Enabled(s, a)
  {
    match a
    case AcceptLocked(t, frames) =>
      s.(ring := if s.ring + frames <= RING_SLOTS then s.ring + frames else RING_SLOTS,
         pushing := s.pushing + {t})
    case ParkOut(t) =>
      s.(outParked := s.outParked + 1, pushing := s.pushing - {t}, kicking := s.kicking + {t})
    case ParkIn(t) =>
      s.(inParked := s.inParked + 1, pushing := s.pushing - {t}, kicking := s.kicking + {t})
    case ParkRefused(t) =>
      s.(pushing := s.pushing - {t}, kicking := s.kicking + {t})
    case Kick(t) =>
      if s.armed then s.(kicking := s.kicking - {t})
      else s.(armed := true, kicking := s.kicking - {t}, starting := s.starting + {t})
    case StartTimer(t) => s.(queued := true, starting := s.starting - {t})
    case Fire(k) => Move(s, k, Fired).(queued := false)
    case TickRelease(k, released) => Move(s, k, DrainingOut).(ring := s.ring - released)
    case TickCompleteOut(k) => s.(outParked := s.outParked - 1)
    case TickOutDone(k) => Move(s, k, DrainingIn)
    case TickCompleteIn(k) => s.(inParked := s.inParked - 1)
    case TickInDone(k) => Move(s, k, Checking)
    case TickReadOut(k) => Move(s, k, SawOut(s.outParked > 0))
    case TickReadIn(k) => Move(s, k, SawBoth(s.ticks[k].out, s.inParked > 0))
    case TickDecide(k) =>
      if s.ring != 0 || s.ticks[k].out || s.ticks[k].inn then Move(s, k, Rearming)
      else s.(armed := false, ticks := s.ticks - {k})
    case TickRearm(k) => s.(queued := true, ticks := s.ticks - {k})
    case CancelOut => s.(outParked := s.outParked - 1)
    case CancelIn => s.(inParked := s.inParked - 1)
    case FlushRing => s.(ring := 0)
  }

  const IDLE := Sys(0, 0, 0, false, false, {}, {}, {}, map[])

  predicate Work(s: Sys) {
    s.ring > 0 || s.outParked > 0 || s.inParked > 0
  }

  predicate KickToCome(s: Sys) {
    s.pushing != {} || s.kicking != {}
  }

  /** Who will make the timer fire or is serving it: pending starts, the set timer, running ticks. */
  function Tokens(s: Sys): nat {
    |s.starting| + (if s.queued then 1 else 0) + |s.ticks.Keys|
  }

  /** A queue length read under the lock may be stale only towards a transfer whose kick is to come. */
  predicate StaleCovered(s: Sys, pc: TickPc) {
    && (Holding(pc) && !pc.out && s.outParked > 0 ==> KickToCome(s))
    && (pc.SawBoth? && !pc.inn && s.inParked > 0 ==> KickToCome(s))
  }

  ghost predicate Inv(s: Sys) {
    && Tokens(s) == (if s.armed then 1 else 0)
    && (Work(s) ==> s.armed || KickToCome(s))
    && (forall k :: k in s.ticks ==> StaleCovered(s, s.ticks[k]))
  }

  function Run(s: Sys, steps: seq<Step>): (r: Sys)
    requires Runs(s, steps)
    decreases |steps|
  {
    if steps == [] then s else Run(Apply(s, steps[0]), steps[1..])
  }

  predicate Runs(s: Sys, steps: seq<Step>)
    decreases |steps|
  {
    steps == [] || (Enabled(s, steps[0]) && Runs(Apply(s, steps[0]), steps[1..]))
  }

  lemma TokenKept(s: Sys, a: Step)
    requires Inv(s) && Enabled(s, a)
    ensures var r := Apply(s, a); Tokens(r) == (if r.armed then 1 else 0)
  {
  }

  /** Work reported by nobody is still somebody's: kicks to come only disappear by being made. */
  lemma WorkKept(s: Sys, a: Step)
    requires Inv(s) && Enabled(s, a)
    ensures var r := Apply(s, a); Work(r) ==> r.armed || KickToCome(r)
  {
  }

  lemma StaleKept(s: Sys, a: Step, k: Tid)
    requires Inv(s) && Enabled(s, a) && k in Apply(s, a).ticks
    ensures StaleCovered(Apply(s, a), Apply(s, a).ticks[k])
  {
    var r := Apply(s, a);
    if Holding(r.ticks[k]) {
      if k in s.ticks && s.ticks[k] == r.ticks[k] {
        // The lock is held across this step, so no kick is made by it.
        assert !LockFree(s);
        assert StaleCovered(s, s.ticks[k]);
        assert KickToCome(s) ==> KickToCome(r) by {
          match a {
            case ParkOut(t) => assert t in r.kicking;
            case ParkIn(t) => assert t in r.kicking;
            case ParkRefused(t) => assert t in r.kicking;
            case _ =>
          }
        }
        match a {
          case ParkOut(t) => assert t in r.kicking;
          case ParkIn(t) => assert t in r.kicking;
          case _ =>
        }
      } else {
        assert a == TickReadOut(k) || a == TickReadIn(k);
        assert k in s.ticks && StaleCovered(s, s.ticks[k]);
      }
    }
  }

  lemma StepKeeps(s: Sys, a: Step)
    requires Inv(s) && Enabled(s, a)
    ensures Inv(Apply(s, a))
  {
    TokenKept(s, a);
    WorkKept(s, a);
    forall k | k in Apply(s, a).ticks ensures StaleCovered(Apply(s, a), Apply(s, a).ticks[k]) {
      StaleKept(s, a, k);
    }
  }

  lemma {:induction false} RunKeeps(s: Sys, steps: seq<Step>)
    requires Inv(s) && Runs(s, steps)
    ensures Inv(Run(s, steps))
    decreases |steps|
  {
    if steps != [] {
      StepKeeps(s, steps[0]);
      RunKeeps(Apply(s, steps[0]), steps[1..]);
    }
  }

  /** The step its holder takes next with the timer token. */
  predicate Advances(s: Sys, a: Step) {
    match a
    case StartTimer(_) => true
    case Fire(_) => true
    case TickRelease(_, _) => true
    case TickOutDone(_) => true
    case TickInDone(_) => true
    case TickReadOut(_) => true
    case TickReadIn(_) => true
    case TickDecide(_) => true
    case TickRearm(_) => true
    case _ => false
  }

  /** An armed timer is never stuck: whoever holds the token can always take its next step. */
  lemma NeverStranded(s: Sys)
    requires Inv(s) && s.armed
    ensures exists a :: Advances(s, a) && Enabled(s, a)
  {
    if s.starting != {} {
      var t :| t in s.starting;
      assert Enabled(s, StartTimer(t));
    } else if s.queued {
      assert |s.ticks.Keys| == 0;
      assert Enabled(s, Fire(0));
    } else {
      var k :| k in s.ticks.Keys;
      assert |s.ticks.Keys - {k}| == 0;
      assert s.ticks.Keys == {k};
      TickAdvances(s, k);
    }
  }

  lemma TickAdvances(s: Sys, k: Tid)
    requires s.ticks.Keys == {k}
    ensures exists a :: Advances(s, a) && Enabled(s, a)
  {
    var pc := s.ticks[k];
    var a := if pc == Fired then TickRelease(k, 0)
             else if pc == DrainingOut then TickOutDone(k)
             else if pc == DrainingIn then TickInDone(k)
             else if pc == Checking then TickReadOut(k)
             else if pc.SawOut? then TickReadIn(k)
             else if pc.SawBoth? then TickDecide(k)
             else TickRearm(k);
    assert Advances(s, a) && Enabled(s, a);
  }

  /** A tick that sees work sets the timer again; one that sees none leaves it for the next kick. */
  lemma TickOutcome(s: Sys, k: Tid)
    requires Inv(s) && Enabled(s, TickDecide(k))
    ensures var r := Apply(s, TickDecide(k));
            && (s.ring > 0 || s.ticks[k].out || s.ticks[k].inn <==> At(r, k, Rearming))
            && (!r.armed ==> !r.queued && r.starting == {} && r.ticks == map[])
            && (!r.armed && Work(r) ==> KickToCome(r))
  {
    StepKeeps(s, TickDecide(k));
    var r := Apply(s, TickDecide(k));
    if !r.armed {
      assert |r.ticks.Keys| == 0;
    }
  }

  /**
   No lost wake-up, in every interleaving from an idle endpoint: queued voice or a parked transfer means
   the timer is armed or a kick is still to come; armed means exactly one pending start, set timer or
   running tick, and not armed means none, so the timer is never started twice; and whoever holds the
   armed timer has a next step.
   */
  lemma NoLostWakeup(steps: seq<Step>)
    requires Runs(IDLE, steps)
    ensures var r := Run(IDLE, steps);
            && Inv(r)
            && (Work(r) ==> r.armed || KickToCome(r))
            && |r.starting| + (if r.queued then 1 else 0) + |r.ticks.Keys| == (if r.armed then 1 else 0)
            && (r.armed ==> exists a :: Advances(r, a) && Enabled(r, a))
  {
    RunKeeps(IDLE, steps);
    if Run(IDLE, steps).armed {
      NeverStranded(Run(IDLE, steps));
    }
  }

  /* ---------------------------------------------------------------- the ledger of transfers and voice */

  /** What a step adds to the transfers parked, or takes away from them. */
  function ParkedBy(a: Step): (int, int) {
    match a
    case ParkOut(_) => (1, 0)
    case ParkIn(_) => (0, 1)
    case TickCompleteOut(_) => (-1, 0)
    case TickCompleteIn(_) => (0, -1)
    case CancelOut => (-1, 0)
    case CancelIn => (0, -1)
    case _ => (0, 0)
  }

  function ParkedOver(steps: seq<Step>): (int, int) {
    if steps == [] then (0, 0)
    else
      var first, rest := ParkedBy(steps[0]), ParkedOver(steps[1..]);
      (first.0 + rest.0, first.1 + rest.1)
  }

  lemma ParkedStep(s: Sys, a: Step)
    requires Enabled(s, a)
    ensures Apply(s, a).outParked == s.outParked + ParkedBy(a).0
    ensures Apply(s, a).inParked == s.inParked + ParkedBy(a).1
  {
  }

  /** Every transfer is parked, completed and cancelled one at a time, in both directions. */
  lemma {:induction false} ParkedExactly(s: Sys, steps: seq<Step>)
    requires Runs(s, steps)
    ensures Run(s, steps).outParked == s.outParked + ParkedOver(steps).0
    ensures Run(s, steps).inParked == s.inParked + ParkedOver(steps).1
    decreases |steps|
  {
    if steps != [] {
      ParkedStep(s, steps[0]);
      ParkedExactly(Apply(s, steps[0]), steps[1..]);
    }
  }

  /** Voice queued by transfers, taken out by ticks, thrown away by flushes; the ring keeps at most 128 frames. */
  function RingOver(ring: nat, steps: seq<Step>): int
    decreases |steps|
  {
    if steps == [] then ring
    else
      RingOver(match steps[0]
               case AcceptLocked(_, frames) => if ring + frames > 128 then 128 else ring + frames
               case TickRelease(_, released) => if released < ring then ring - released else 0
               case FlushRing => 0
               case _ => ring,
               steps[1..])
  }

  lemma {:induction false} RingExactly(s: Sys, steps: seq<Step>)
    requires Runs(s, steps)
    ensures Run(s, steps).ring == RingOver(s.ring, steps)
    decreases |steps|
  {
    if steps != [] {
      RingExactly(Apply(s, steps[0]), steps[1..]);
    }
  }

  /** The thread of an accepted transfer goes from queueing to parking to its kick, and is then done. */
  lemma ThreadsMoveOn(s: Sys, a: Step)
    requires Inv(s) && Enabled(s, a)
    ensures var r := Apply(s, a);
            && (a.AcceptLocked? ==> r.pushing == s.pushing + {a.t} && r.kicking == s.kicking)
            && (a.ParkOut? || a.ParkIn? || a.ParkRefused? ==>
                  a.t in s.pushing && a.t !in r.pushing && |r.pushing| == |s.pushing| - 1
                  && r.kicking == s.kicking + {a.t})
            && (a.Kick? ==> r.pushing == s.pushing && |r.kicking| == |s.kicking| - 1)
  {
  }

  /* ---------------------------------------------------------------- everything drains */

  function Load(s: Sys): nat {
    s.ring + s.outParked + s.inParked
  }

  /** Nothing queued, nothing parked, nobody about to act and the timer idle. */
  predicate AtRest(s: Sys) {
    !Work(s) && !KickToCome(s) && !s.armed
  }

  /** The one tick that runs, when one does. */
  predicate OneTick(s: Sys, k: Tid) {
    s.ticks.Keys == {k}
  }

  function TickOnward(s: Sys, k: Tid): Step
    requires k in s.ticks
  {
    match s.ticks[k]
    case Fired => TickRelease(k, s.ring)
    case DrainingOut => if s.outParked > 0 then TickCompleteOut(k) else TickOutDone(k)
    case DrainingIn => if s.inParked > 0 then TickCompleteIn(k) else TickInDone(k)
    case Checking => TickReadOut(k)
    case SawOut(_) => TickReadIn(k)
    case SawBoth(_, _) => TickDecide(k)
    case Rearming => TickRearm(k)
  }

  /** How far a tick still is from taking something out, or with nothing left from letting the timer go. */
  function TickLeft(s: Sys, pc: TickPc): nat {
    if Load(s) > 0 then
      match pc
      case DrainingOut => if s.outParked > 0 || s.ring == 0 then 4 else 14
      case DrainingIn => if s.inParked > 0 then 3 else 13
      case Checking => 12
      case SawOut(_) => 11
      case SawBoth(_, _) => 10
      case Rearming => 9
      case Fired => 5
    else
      match pc
      case SawOut(out) => if out then 20 else 11
      case SawBoth(out, inn) => if out || inn then 19 else 10
      case Rearming => 18
      case Fired => 15
      case DrainingOut => 14
      case DrainingIn => 13
      case Checking => 12
  }

  ghost function TokenLeft(s: Sys): nat {
    if s.ticks.Keys != {} then
      var k :| k in s.ticks.Keys;
      TickLeft(s, s.ticks[k])
    else if s.starting != {} then if Load(s) > 0 then 8 else 17
    else if s.queued then if Load(s) > 0 then 6 else 16
    else 0
  }

  lemma TickIsToken(s: Sys, k: Tid)
    requires OneTick(s, k)
    ensures TokenLeft(s) == TickLeft(s, s.ticks[k])
  {
  }

  lemma OnlyTick(s: Sys) returns (k: Tid)
    requires Inv(s) && s.ticks.Keys != {}
    ensures OneTick(s, k) && s.armed && s.starting == {} && !s.queued
  {
    k :| k in s.ticks.Keys;
    assert |s.ticks.Keys - {k}| == |s.ticks.Keys| - 1 == 0;
  }

  /** The tick goes on, while no thread is about to park a transfer or to kick. */
  ghost predicate Closer(t: Sys, s: Sys) {
    Load(t) < Load(s) || (Load(t) == Load(s) && TokenLeft(t) < TokenLeft(s))
  }

  lemma TickGoesOn(s: Sys, k: Tid)
    requires Inv(s) && OneTick(s, k) && s.starting == {} && !s.queued
    ensures Enabled(s, TickOnward(s, k))
    ensures var t := Apply(s, TickOnward(s, k));
            && t.pushing == s.pushing && t.kicking == s.kicking && Closer(t, s)
  {
    var t := Apply(s, TickOnward(s, k));
    TickIsToken(s, k);
    if t.ticks.Keys != {} {
      assert t.ticks.Keys == {k};
      TickIsToken(t, k);
    }
  }

  /** Neither a new transfer nor anybody else taking transfers or voice away. */
  predicate Own(a: Step) {
    !a.AcceptLocked? && !a.CancelOut? && !a.CancelIn? && !a.FlushRing?
  }

  ghost predicate Lower(t: Sys, s: Sys) {
    || |t.pushing| < |s.pushing|
    || (t.pushing == s.pushing && |t.kicking| < |s.kicking|)
    || (t.pushing == s.pushing && t.kicking == s.kicking && Closer(t, s))
  }

  lemma ThreadGoesOn(s: Sys) returns (a: Step)
    requires Inv(s) && KickToCome(s) && LockFree(s)
    ensures Enabled(s, a) && Own(a) && Lower(Apply(s, a), s)
  {
    if s.pushing != {} {
      var t :| t in s.pushing;
      ThreadsMoveOn(s, ParkOut(t));
      a := ParkOut(t);
    } else {
      var t :| t in s.kicking;
      ThreadsMoveOn(s, Kick(t));
      a := Kick(t);
    }
  }

  lemma StartGoesOn(s: Sys) returns (a: Step)
    requires Inv(s) && s.ticks.Keys == {} && s.starting != {}
    ensures Enabled(s, a) && Own(a) && Lower(Apply(s, a), s)
  {
    var t :| t in s.starting;
    a := StartTimer(t);
    assert |s.starting - {t}| == |s.starting| - 1 == 0;
    assert TokenLeft(Apply(s, a)) == if Load(s) > 0 then 6 else 16;
  }

  lemma TimerGoesOn(s: Sys)
    requires Inv(s) && s.ticks.Keys == {} && s.starting == {} && s.queued
    ensures Enabled(s, Fire(0)) && Lower(Apply(s, Fire(0)), s)
  {
    assert Apply(s, Fire(0)).ticks.Keys == {0};
    TickIsToken(Apply(s, Fire(0)), 0);
  }

  /** What the threads and the timer do next when no transfer comes any more. */
  lemma NextToGo(s: Sys) returns (a: Step)
    requires Inv(s) && !AtRest(s)
    ensures Enabled(s, a) && Own(a) && Lower(Apply(s, a), s)
  {
    if KickToCome(s) && LockFree(s) {
      a := ThreadGoesOn(s);
    } else if s.ticks.Keys != {} {
      var k := OnlyTick(s);
      TickGoesOn(s, k);
      a := TickOnward(s, k);
    } else if s.starting != {} {
      a := StartGoesOn(s);
    } else {
      TimerGoesOn(s);
      a := Fire(0);
    }
  }

  lemma FirstStep(s: Sys, a: Step, later: seq<Step>)
    requires Enabled(s, a) && Runs(Apply(s, a), later)
    ensures Runs(s, [a] + later) && Run(s, [a] + later) == Run(Apply(s, a), later)
  {
    assert ([a] + later)[1..] == later;
  }

  lemma {:induction false} ComesToRest(s: Sys) returns (steps: seq<Step>)
    requires Inv(s)
    ensures Runs(s, steps) && AtRest(Run(s, steps))
    ensures forall a <- steps :: Own(a)
    decreases |s.pushing|, |s.kicking|, Load(s), TokenLeft(s)
  {
    if AtRest(s) {
      return [];
    }
    var a := NextToGo(s);
    StepKeeps(s, a);
    var later := ComesToRest(Apply(s, a));
    FirstStep(s, a, later);
    steps := [a] + later;
  }

  /**
   Everything drains. Whatever has happened so far, once no transfer comes any more the threads and the
   timer alone can complete every parked transfer, release all queued voice and let the timer go.
   */
  lemma EverythingDrains(before: seq<Step>) returns (steps: seq<Step>)
    requires Runs(IDLE, before)
    ensures Runs(Run(IDLE, before), steps) && AtRest(Run(Run(IDLE, before), steps))
    ensures forall a <- steps :: Own(a)
  {
    RunKeeps(IDLE, before);
    steps := ComesToRest(Run(IDLE, before));
  }
}
