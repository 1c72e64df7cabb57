/**
 Publication of the session record by the detached worker and its monitor (src/driver/qca_uart.c), as a
 state machine over their atomic steps. Cancellers may request a stop at any moment.
 */
module ProbeRecord {
  datatype Record = InProgress | Released | Abandoned

  datatype Holder = Nobody | TheWorker | TheMonitor

  /** Inside QcaUartPublishProbe. */
  datatype Publish = Looping | AtGate | Gated | Committing | Committed | LeavingGate

  datatype Worker =
    | Unborn
    | Working
    | Publishing(final: bool, p: Publish)
    | HandedBack
    | Finished
    | Signalled
    | Exited

  datatype Monitor =
    | Starting
    | Watching
    | Woken(byWorker: bool)
    | Cancelling
    | Queueing
    | InGate
    | Overriding
    | GateLeaving
    | Done

  /**
   stop and stopped are StopRequested and ReportingStopped; held: the UART is in the driver's hands;
   log lists the records committed, in order.
   */
  datatype Session = Session(
    stop: bool, stopped: bool, gate: Holder, held: bool,
    worker: Worker, monitor: Monitor, log: seq<Record>)

  const ARMED := Session(false, false, Nobody, false, Unborn, Starting, [])

  datatype Step =
    | RequestStop
    | CreateWorker
    | CreateFails
    | OpenUart
    | BeginPublish
    | LoopCheck
    | WaitGate(timeout: bool)
    | Recheck
    | Commit
    | Terminal
    | ReturnGate
    | ReleaseUart
    | SignalDone
    | ExitWorker
    | Wake(byWorker: bool)
    | Decide
    | CancelProbe
    | EnterGate
    | Override
    | CommitAbandoned
    | LeaveGate

  predicate At(s: Session, p: Publish) {
    s.worker.Publishing? && s.worker.p == p
  }

  predicate Enabled(s: Session, a: Step) {
    match a
    case RequestStop => s.worker != Exited
    case CreateWorker => s.monitor == Starting
    case CreateFails => s.monitor == Starting
    case OpenUart => s.worker == Working
    case BeginPublish => s.worker == Working || s.worker == HandedBack
    case LoopCheck => At(s, Looping)
    case WaitGate(timeout) => At(s, AtGate) && (timeout || s.gate == Nobody)
    case Recheck => At(s, Gated)
    case Commit => At(s, Committing)
    case Terminal => At(s, Committed)
    case ReturnGate => At(s, LeavingGate)
    case ReleaseUart => s.worker == Working
    case SignalDone => s.worker == Finished
    case ExitWorker => s.worker == Signalled && s.monitor == Done
    case Wake(byWorker) => s.monitor == Watching && (byWorker ==> s.worker == Signalled)
    case Decide => s.monitor.Woken?
    case CancelProbe => s.monitor == Cancelling
    case EnterGate => s.monitor == Queueing && s.gate == Nobody
    case Override => s.monitor == InGate
    case CommitAbandoned => s.monitor == Overriding
    case LeaveGate => s.monitor == GateLeaving
  }

  function After(w: Worker): Worker
    requires w.Publishing?
  {
    if w.final then Finished else Working
  }

  function NextRecord(s: Session): Record
    requires s.worker.Publishing?
  {
    if s.worker.final then Released else InProgress
  }

  function Apply(s: Session, a: Step): Session
    requires Enabled(s, a)
  {
    match a
    case RequestStop => s.(stop := true)
    case CreateWorker => s.(worker := Working, monitor := Watching)
    case CreateFails => s.(worker := Exited, monitor := Done, log := s.log + [Released])
    case OpenUart => s.(held := true)
    case BeginPublish => s.(worker := Publishing(s.worker == HandedBack, Looping))
    case LoopCheck =>
      if s.stopped || s.stop then s.(worker := After(s.worker)) else s.(worker := s.worker.(p := AtGate))
    case WaitGate(timeout) =>
      if timeout then s.(worker := s.worker.(p := Looping))
      else s.(gate := TheWorker, worker := s.worker.(p := Gated))
    case Recheck => s.(worker := s.worker.(p := if s.stopped || s.stop then LeavingGate else Committing))
    case Commit => s.(log := s.log + [NextRecord(s)], worker := s.worker.(p := Committed))
    case Terminal => s.(stopped := s.stopped || s.worker.final, worker := s.worker.(p := LeavingGate))
    case ReturnGate => s.(gate := Nobody, worker := After(s.worker))
    case ReleaseUart => s.(held := false, worker := HandedBack)
    case SignalDone => s.(worker := Signalled)
    case ExitWorker => s.(worker := Exited)
    case Wake(byWorker) => s.(monitor := Woken(byWorker))
    case Decide => s.(monitor := if s.monitor.byWorker && !s.stop then Done else Cancelling)
    case CancelProbe => s.(stop := true, monitor := Queueing)
    case EnterGate => s.(gate := TheMonitor, monitor := InGate)
    case Override =>
      if s.stopped then s.(monitor := GateLeaving) else s.(stopped := true, monitor := Overriding)
    case CommitAbandoned => s.(log := s.log + [Abandoned], monitor := GateLeaving)
    case LeaveGate => s.(gate := Nobody, monitor := Done)
  }

  /** Exactly one terminal record has been committed, and it is the last record. */
  predicate Closed(log: seq<Record>) {
    && log != [] && log[|log| - 1] != InProgress
    && forall i :: 0 <= i < |log| - 1 ==> log[i] == InProgress
  }

  predicate Open(log: seq<Record>) {
    forall i :: 0 <= i < |log| ==> log[i] == InProgress
  }

  predicate WorkerInGate(w: Worker) {
    w.Publishing? && w.p != Looping && w.p != AtGate
  }

  predicate MonitorInGate(m: Monitor) {
    m == InGate || m == Overriding || m == GateLeaving
  }

  /** The worker has passed its last chance to publish. */
  predicate Reported(w: Worker) {
    w == Finished || w == Signalled || w == Exited
  }

  predicate HandBackDone(w: Worker) {
    w == HandedBack || Reported(w) || (w.Publishing? && w.final)
  }

  predicate Inv(s: Session) {
    && (s.gate == TheWorker <==> WorkerInGate(s.worker))
    && (s.gate == TheMonitor <==> MonitorInGate(s.monitor))
    && (Open(s.log) || Closed(s.log))
    && (s.monitor == Starting ==> s.log == [] && !s.stopped && s.worker == Unborn && !s.held)
    && (s.worker == Unborn ==> s.monitor == Starting)
    && (Closed(s.log) ==> s.stopped || (At(s, Committed) && s.worker.final) || s.monitor == Done)
    && (s.stopped ==> Closed(s.log) || s.monitor == Overriding)
    && (At(s, Committing) ==> !s.stopped && Open(s.log))
    && (At(s, Committed) ==> !s.stopped && if s.worker.final then Closed(s.log) else Open(s.log))
    && (At(s, LeavingGate) && s.worker.final ==> s.stop || s.stopped)
    && (s.monitor == Overriding ==> s.stopped && Open(s.log))
    && (s.monitor == GateLeaving ==> Closed(s.log))
    && (s.monitor == Done ==> Closed(s.log) && (s.stopped || s.worker == Exited))
    && (Reported(s.worker) ==> s.stop || Closed(s.log) || s.monitor == Overriding)
    && ((s.monitor == Queueing || MonitorInGate(s.monitor)) ==> s.stop)
    && (s.monitor.Woken? && s.monitor.byWorker ==> s.worker == Signalled)
    && (HandBackDone(s.worker) ==> !s.held)
    && (Released in s.log ==> HandBackDone(s.worker))
  }

  predicate Runs(s: Session, steps: seq<Step>)
    decreases |steps|
  {
    steps == [] || (Enabled(s, steps[0]) && Runs(Apply(s, steps[0]), steps[1..]))
  }

  function Run(s: Session, steps: seq<Step>): Session
    requires Runs(s, steps)
    decreases |steps|
  {
    if steps == [] then s else Run(Apply(s, steps[0]), steps[1..])
  }

  predicate Publishes(a: Step) {
    a.LoopCheck? || a.WaitGate? || a.Recheck? || a.Commit? || a.Terminal? || a.ReturnGate?
  }

  predicate Works(a: Step) {
    a.OpenUart? || a.BeginPublish? || a.ReleaseUart? || a.SignalDone? || a.ExitWorker?
  }

  predicate Overrides(a: Step) {
    a.EnterGate? || a.Override? || a.CommitAbandoned? || a.LeaveGate?
  }

  lemma PublishKeeps(s: Session, a: Step)
    requires Inv(s) && Enabled(s, a) && Publishes(a)
    ensures Inv(Apply(s, a))
  {
  }

  lemma WorkKeeps(s: Session, a: Step)
    requires Inv(s) && Enabled(s, a) && Works(a)
    ensures Inv(Apply(s, a))
  {
  }

  lemma OverrideKeeps(s: Session, a: Step)
    requires Inv(s) && Enabled(s, a) && Overrides(a)
    ensures Inv(Apply(s, a))
  {
  }

  lemma WatchKeeps(s: Session, a: Step)
    requires Inv(s) && Enabled(s, a) && !Publishes(a) && !Works(a) && !Overrides(a)
    ensures Inv(Apply(s, a))
  {
  }

  lemma StepKeeps(s: Session, a: Step)
    requires Inv(s) && Enabled(s, a)
    ensures Inv(Apply(s, a))
  {
    if Publishes(a) {
      PublishKeeps(s, a);
    } else if Works(a) {
      WorkKeeps(s, a);
    } else if Overrides(a) {
      OverrideKeeps(s, a);
    } else {
      WatchKeeps(s, a);
    }
  }

  lemma {:induction false} RunKeeps(s: Session, steps: seq<Step>)
    requires Inv(s) && Runs(s, steps)
    ensures Inv(Run(s, steps))
    decreases |steps|
  {
    if steps != [] {
      StepKeeps(s, steps[0]);
      RunKeeps(Apply(s, steps[0]), steps[1..]);
    }
  }

  /** Only the monitor abandons a session, and only after a stop was asked for. */
  lemma StepAbandons(s: Session, a: Step)
    requires Inv(s) && Enabled(s, a)
    ensures Abandoned in Apply(s, a).log <==> Abandoned in s.log || a == CommitAbandoned
    ensures a == CommitAbandoned ==> s.stop
    ensures s.stop ==> Apply(s, a).stop
  {
  }

  lemma {:induction false} RunAbandons(s: Session, steps: seq<Step>)
    requires Inv(s) && Runs(s, steps)
    requires Abandoned in s.log ==> s.stop
    ensures Abandoned in Run(s, steps).log ==> Run(s, steps).stop
    ensures Abandoned in Run(s, steps).log <==> Abandoned in s.log || CommitAbandoned in steps
    decreases |steps|
  {
    if steps != [] {
      StepKeeps(s, steps[0]);
      StepAbandons(s, steps[0]);
      RunAbandons(Apply(s, steps[0]), steps[1..]);
    }
  }

  lemma HeldStep(s: Session, a: Step)
    requires Inv(s) && Enabled(s, a)
    ensures Apply(s, a).held <==> a != ReleaseUart && (s.held || a == OpenUart)
    ensures a == ReleaseUart ==> HandBackDone(Apply(s, a).worker)
    ensures HandBackDone(s.worker) ==> HandBackDone(Apply(s, a).worker) && a != OpenUart && a != ReleaseUart
  {
  }

  lemma {:induction false} NeverReopened(s: Session, steps: seq<Step>)
    requires Inv(s) && Runs(s, steps) && HandBackDone(s.worker)
    ensures OpenUart !in steps && ReleaseUart !in steps
    decreases |steps|
  {
    if steps != [] {
      StepKeeps(s, steps[0]);
      HeldStep(s, steps[0]);
      NeverReopened(Apply(s, steps[0]), steps[1..]);
    }
  }

  /** The UART is in the driver's hands from its opening until it is given back, and never again. */
  lemma {:induction false} HeldBetween(s: Session, steps: seq<Step>)
    requires Inv(s) && Runs(s, steps)
    ensures Run(s, steps).held <==> ReleaseUart !in steps && (s.held || OpenUart in steps)
    decreases |steps|
  {
    if steps != [] {
      StepKeeps(s, steps[0]);
      HeldStep(s, steps[0]);
      HeldBetween(Apply(s, steps[0]), steps[1..]);
      if steps[0] == ReleaseUart {
        NeverReopened(Apply(s, steps[0]), steps[1..]);
      }
    }
  }

  lemma LastRecord(log: seq<Record>)
    requires Closed(log)
    ensures log[|log| - 1] == if Abandoned in log then Abandoned else Released
  {
  }

  lemma InvMeans(s: Session)
    requires Inv(s)
    ensures Open(s.log) || Closed(s.log)
    ensures s.monitor == Done ==> Closed(s.log)
    ensures Released in s.log ==> !s.held
  {
  }

  /**
   Every session ends with exactly one terminal record, and the right one. In every interleaving of
   worker, monitor and cancellers at most one Released or Abandoned record is committed and nothing
   after it; once the monitor is done there is one. A Released record means the UART had been given
   back, if it was ever opened. The session is Abandoned exactly when the monitor overrode it, which takes
   a request to stop; a session that nobody stopped ends Released.
   */
  lemma OneTerminalRecord(steps: seq<Step>)
    requires Runs(ARMED, steps)
    ensures var s := Run(ARMED, steps);
            && (Open(s.log) || Closed(s.log))
            && (s.monitor == Done ==> Closed(s.log))
            && (Released in s.log ==> !s.held)
            && (s.held <==> OpenUart in steps && ReleaseUart !in steps)
            && (Abandoned in s.log <==> CommitAbandoned in steps)
            && (Abandoned in s.log ==> s.stop)
            && (s.monitor == Done ==>
                  s.log[|s.log| - 1] == if CommitAbandoned in steps then Abandoned else Released)
            && (s.monitor == Done && !s.stop ==> s.log[|s.log| - 1] == Released)
  {
    RunKeeps(ARMED, steps);
    RunAbandons(ARMED, steps);
    HeldBetween(ARMED, steps);
    InvMeans(Run(ARMED, steps));
    if Run(ARMED, steps).monitor == Done {
      LastRecord(Run(ARMED, steps).log);
    }
  }

  lemma NothingAfterTheEnd(s: Session, a: Step)
    requires Inv(s) && Closed(s.log) && Enabled(s, a)
    ensures Apply(s, a).log == s.log
  {
    assert s.log[|s.log| - 1] != InProgress;
  }

  /** What ends the log stays its end, whoever runs on. */
  lemma {:induction false} ClosedIsFinal(s: Session, steps: seq<Step>)
    requires Inv(s) && Closed(s.log) && Runs(s, steps)
    ensures Run(s, steps).log == s.log
    decreases |steps|
  {
    if steps != [] {
      StepKeeps(s, steps[0]);
      NothingAfterTheEnd(s, steps[0]);
      ClosedIsFinal(Apply(s, steps[0]), steps[1..]);
    }
  }

  /* ---------------------------------------------------------------- no session hangs */

  /** The worker goes straight for its end. */
  function WorkerOnward(s: Session): Step {
    match s.worker
    case Unborn => CreateWorker
    case Working => ReleaseUart
    case Publishing(_, Looping) => LoopCheck
    case Publishing(_, AtGate) => WaitGate(false)
    case Publishing(_, Gated) => Recheck
    case Publishing(_, Committing) => Commit
    case Publishing(_, Committed) => Terminal
    case Publishing(_, LeavingGate) => ReturnGate
    case HandedBack => BeginPublish
    case Finished => SignalDone
    case Signalled => ExitWorker
    case Exited => RequestStop
  }

  function MonitorOnward(s: Session): Step {
    match s.monitor
    case Starting => CreateWorker
    case Watching => Wake(true)
    case Woken(_) => Decide
    case Cancelling => CancelProbe
    case Queueing => EnterGate
    case InGate => Override
    case Overriding => CommitAbandoned
    case GateLeaving => LeaveGate
    case Done => ExitWorker
  }

  /** A fair turn: the monitor leaves the gate first, the worker ends, then the monitor does. */
  function Onward(s: Session): Step {
    if MonitorInGate(s.monitor) then MonitorOnward(s)
    else if s.worker == Signalled || s.worker == Exited then MonitorOnward(s)
    else WorkerOnward(s)
  }

  function Stages(p: Publish): nat {
    match p
    case Looping => 6
    case AtGate => 5
    case Gated => 4
    case Committing => 3
    case Committed => 2
    case LeavingGate => 1
  }

  function WorkLeft(w: Worker): nat {
    match w
    case Unborn => 20
    case Publishing(final, p) => Stages(p) + if final then 3 else 12
    case Working => 11
    case HandedBack => 10
    case Finished => 2
    case Signalled => 1
    case Exited => 0
  }

  function WatchLeft(m: Monitor): nat {
    match m
    case Starting => 9
    case Watching => 8
    case Woken(_) => 7
    case Cancelling => 6
    case Queueing => 5
    case InGate => 4
    case Overriding => 3
    case GateLeaving => 2
    case Done => 0
  }

  predicate Ended(s: Session) {
    s.worker == Exited && s.monitor == Done
  }

  /** The monitor has begun, or is about to begin, to cancel the session itself. */
  predicate Cancels(m: Monitor) {
    m == Woken(false) || m == Cancelling
  }

  predicate MonitorsTurn(s: Session) {
    MonitorInGate(s.monitor) || s.worker == Signalled || s.worker == Exited
  }

  lemma MonitorGoesOn(s: Session)
    requires Inv(s) && !Ended(s) && (s.worker == Exited ==> s.monitor == Done) && MonitorsTurn(s)
    ensures Enabled(s, Onward(s)) && Onward(s) != RequestStop
    ensures var t := Apply(s, Onward(s));
            && WorkLeft(t.worker) + WatchLeft(t.monitor) < WorkLeft(s.worker) + WatchLeft(s.monitor)
            && (t.worker == Exited ==> t.monitor == Done)
            && (!s.stop && !Cancels(s.monitor) ==> !t.stop && !Cancels(t.monitor))
  {
  }

  lemma WorkerGoesOn(s: Session)
    requires Inv(s) && !Ended(s) && (s.worker == Exited ==> s.monitor == Done) && !MonitorsTurn(s)
    ensures Enabled(s, Onward(s)) && Onward(s) != RequestStop
    ensures var t := Apply(s, Onward(s));
            && WorkLeft(t.worker) + WatchLeft(t.monitor) < WorkLeft(s.worker) + WatchLeft(s.monitor)
            && (t.worker == Exited ==> t.monitor == Done)
            && (!s.stop && !Cancels(s.monitor) ==> !t.stop && !Cancels(t.monitor))
  {
  }

  lemma OnwardGoesOn(s: Session)
    requires Inv(s) && !Ended(s) && (s.worker == Exited ==> s.monitor == Done)
    ensures Enabled(s, Onward(s)) && Onward(s) != RequestStop
    ensures var t := Apply(s, Onward(s));
            && WorkLeft(t.worker) + WatchLeft(t.monitor) < WorkLeft(s.worker) + WatchLeft(s.monitor)
            && (t.worker == Exited ==> t.monitor == Done)
            && (!s.stop && !Cancels(s.monitor) ==> !t.stop && !Cancels(t.monitor))
  {
    if MonitorsTurn(s) {
      MonitorGoesOn(s);
    } else {
      WorkerGoesOn(s);
    }
  }

  lemma FirstStep(s: Session, a: Step, later: seq<Step>)
    requires Enabled(s, a) && Runs(Apply(s, a), later)
    ensures Runs(s, [a] + later) && Run(s, [a] + later) == Run(Apply(s, a), later)
  {
    assert ([a] + later)[1..] == later;
  }

  /** From wherever a session stands it can be brought to its end without a further request to stop. */
  lemma {:induction false} SessionEnds(s: Session) returns (steps: seq<Step>)
    requires Inv(s) && (s.worker == Exited ==> s.monitor == Done)
    ensures Runs(s, steps) && Ended(Run(s, steps)) && RequestStop !in steps
    ensures !s.stop && !Cancels(s.monitor) ==> !Run(s, steps).stop
    decreases WorkLeft(s.worker) + WatchLeft(s.monitor)
  {
    if Ended(s) {
      return [];
    }
    OnwardGoesOn(s);
    StepKeeps(s, Onward(s));
    var later := SessionEnds(Apply(s, Onward(s)));
    FirstStep(s, Onward(s), later);
    steps := [Onward(s)] + later;
  }

  lemma {:induction false} RunAppend(s: Session, a: seq<Step>, b: seq<Step>)
    requires Runs(s, a) && Runs(Run(s, a), b)
    ensures Runs(s, a + b) && Run(s, a + b) == Run(Run(s, a), b)
    decreases |a|
  {
    if a == [] {
      assert a + b == b;
    } else {
      assert (a + b)[0] == a[0] && (a + b)[1..] == a[1..] + b;
      RunAppend(Apply(s, a[0]), a[1..], b);
    }
  }

  lemma ExitsLast(s: Session, a: Step)
    requires Inv(s) && Enabled(s, a) && (s.worker == Exited ==> s.monitor == Done)
    ensures Apply(s, a).worker == Exited ==> Apply(s, a).monitor == Done
  {
  }

  lemma {:induction false} RunExitsLast(s: Session, steps: seq<Step>)
    requires Inv(s) && Runs(s, steps) && (s.worker == Exited ==> s.monitor == Done)
    ensures Run(s, steps).worker == Exited ==> Run(s, steps).monitor == Done
    decreases |steps|
  {
    if steps != [] {
      StepKeeps(s, steps[0]);
      ExitsLast(s, steps[0]);
      RunExitsLast(Apply(s, steps[0]), steps[1..]);
    }
  }

  /**
   No session hangs. Whatever has happened so far, the threads can go on to the end, where the worker is
   gone and the record is terminal; and if nobody has asked for a stop by then, the record is Released.
   */
  lemma SessionCompletes(before: seq<Step>) returns (steps: seq<Step>)
    requires Runs(ARMED, before)
    ensures Runs(ARMED, before + steps)
    ensures var s, t := Run(ARMED, before), Run(ARMED, before + steps);
            && Ended(t) && Closed(t.log) && !t.held
            && (!s.stop && !Cancels(s.monitor) ==> t.log[|t.log| - 1] == Released)
  {
    var s := Run(ARMED, before);
    RunKeeps(ARMED, before);
    RunExitsLast(ARMED, before);
    steps := SessionEnds(s);
    RunAppend(ARMED, before, steps);
    OneTerminalRecord(before + steps);
    RunKeeps(s, steps);
  }
}
