/**
 In-band sleep: the controller's wake indications, noted by read completions and acknowledged by the
 steady worker (src/driver/qca_uart.c), as a state machine over their atomic steps.
 */
module IbsWake {
  type Tid = nat

  datatype WorkerPc = Waiting | Cleared | Answering

  /**
   wakes counts the indications received, covered those received before the last one the worker took
   up; signalling holds the completions that have set IbsAckPending but not the event yet.
   */
  datatype Sys = Sys(
    pending: bool, event: bool, worker: WorkerPc,
    signalling: set<Tid>, wakes: nat, covered: nat, acks: nat, skipped: nat)

  datatype Step =
    | WakeInd(t: Tid)
    | Signal(t: Tid)
    | ClearEvent
    | TakePending
    | Answer(written: bool)

  predicate Enabled(s: Sys, a: Step) {
    match a
    case WakeInd(t) => t !in s.signalling
    case Signal(t) => t in s.signalling
    case ClearEvent => s.worker == Waiting
    case TakePending => s.worker == Cleared
    case Answer(_) => s.worker == Answering
  }

  function Apply(s: Sys, a: Step): Sys
    requires Enabled(s, a)
  {
    match a
    case WakeInd(t) => s.(wakes := s.wakes + 1, pending := true, signalling := s.signalling + {t})
    case Signal(t) => s.(event := true, signalling := s.signalling - {t})
    case ClearEvent => s.(event := false, worker := Cleared)
    case TakePending =>
      if s.pending then s.(pending := false, covered := s.wakes, worker := Answering)
      else s.(worker := Waiting)
    case Answer(written) =>
      if written then s.(acks := s.acks + 1, worker := Waiting)
      else s.(skipped := s.skipped + 1, worker := Waiting)
  }

  const ARMED := Sys(false, false, Waiting, {}, 0, 0, 0, 0)

  predicate Inv(s: Sys) {
    && (s.pending ==> s.event || s.signalling != {} || s.worker == Cleared)
    && (s.pending <==> s.covered < s.wakes)
    && s.covered <= s.wakes
    && s.acks + s.skipped + (if s.worker == Answering then 1 else 0) <= s.covered
  }

  predicate Runs(s: Sys, steps: seq<Step>)
    decreases |steps|
  {
    steps == [] || (Enabled(s, steps[0]) && Runs(Apply(s, steps[0]), steps[1..]))
  }

  function Run(s: Sys, steps: seq<Step>): Sys
    requires Runs(s, steps)
    decreases |steps|
  {
    if steps == [] then s else Run(Apply(s, steps[0]), steps[1..])
  }

  lemma {:induction false} RunKeeps(s: Sys, steps: seq<Step>)
    requires Inv(s) && Runs(s, steps)
    ensures Inv(Run(s, steps))
    decreases |steps|
  {
    if steps != [] {
      assert steps[0].WakeInd? ==> steps[0].t in Apply(s, steps[0]).signalling;
      RunKeeps(Apply(s, steps[0]), steps[1..]);
    }
  }

  /** What a run did: indications received, answers written and given up. */
  function Wakes(steps: seq<Step>): nat {
    if steps == [] then 0 else (if steps[0].WakeInd? then 1 else 0) + Wakes(steps[1..])
  }

  function Answers(steps: seq<Step>, written: bool): nat {
    if steps == [] then 0 else (if steps[0] == Answer(written) then 1 else 0) + Answers(steps[1..], written)
  }

  /** A completion has noted an indication and not set the event since. */
  predicate Owes(steps: seq<Step>, t: Tid)
    decreases |steps|
  {
    steps != [] && var last := steps[|steps| - 1];
    last == WakeInd(t) || (last != Signal(t) && Owes(steps[..|steps| - 1], t))
  }

  /** The event has been set since it was cleared last. */
  predicate EventSet(steps: seq<Step>)
    decreases |steps|
  {
    steps != [] && var last := steps[|steps| - 1];
    last.Signal? || (!last.ClearEvent? && EventSet(steps[..|steps| - 1]))
  }

  lemma {:induction false} CountsAreExact(s: Sys, steps: seq<Step>)
    requires Runs(s, steps)
    ensures var r := Run(s, steps);
            && r.wakes == s.wakes + Wakes(steps)
            && r.acks == s.acks + Answers(steps, true) && r.skipped == s.skipped + Answers(steps, false)
    decreases |steps|
  {
    if steps != [] {
      CountsAreExact(Apply(s, steps[0]), steps[1..]);
    }
  }

  lemma {:induction false} RunSnoc(s: Sys, steps: seq<Step>)
    requires Runs(s, steps) && steps != []
    ensures var before := steps[..|steps| - 1];
            && Runs(s, before) && Enabled(Run(s, before), steps[|steps| - 1])
            && Run(s, steps) == Apply(Run(s, before), steps[|steps| - 1])
    decreases |steps|
  {
    if |steps| > 1 {
      assert steps[1..][..|steps| - 2] == steps[..|steps| - 1][1..];
      RunSnoc(Apply(s, steps[0]), steps[1..]);
    }
  }

  lemma {:induction false} SignalsAreExact(steps: seq<Step>)
    requires Runs(ARMED, steps)
    ensures forall t :: t in Run(ARMED, steps).signalling <==> Owes(steps, t)
    ensures Run(ARMED, steps).event <==> EventSet(steps)
    decreases |steps|
  {
    if steps != [] {
      RunSnoc(ARMED, steps);
      SignalsAreExact(steps[..|steps| - 1]);
    }
  }

  /**
   No wake indication is forgotten: in every interleaving an indication not yet taken up leaves the
   work event set, or about to be set, or the worker about to look; with none pending, all received
   so far have been taken up. Repeated indications collapse: there are never more answers than them.
   */
  lemma NoWakeForgotten(steps: seq<Step>)
    requires Runs(ARMED, steps)
    ensures var r := Run(ARMED, steps);
            && Inv(r) && r.wakes == Wakes(steps)
            && (r.event <==> EventSet(steps)) && (forall t :: t in r.signalling <==> Owes(steps, t))
            && (r.covered < r.wakes ==> r.pending && (r.event || r.signalling != {} || r.worker == Cleared))
            && (!r.pending ==> r.covered == r.wakes)
            && Answers(steps, true) + Answers(steps, false) <= r.wakes
  {
    RunKeeps(ARMED, steps);
    CountsAreExact(ARMED, steps);
    SignalsAreExact(steps);
  }

  /** Left alone, the worker takes up whatever is pending in at most one pass. */
  lemma OnePassAnswers(s: Sys)
    requires Inv(s) && s.worker == Waiting
    ensures Runs(s, [ClearEvent, TakePending])
    ensures var r := Run(s, [ClearEvent, TakePending]);
            && r.covered == r.wakes == s.wakes && !r.pending
            && (s.pending <==> r.worker == Answering)
  {
  }
}
