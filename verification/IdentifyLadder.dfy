/**
 The identify ladder (src/driver/qca_uart.c, src/common/qca_identify.c): the worker climbs three line
 rates while read completions, a failing line and cancellers act at any moment.
 */
module IdentifyLadder {
  import opened Bytes
  import opened Tlv
  import opened Replies

  const RATES := 3

  function Rate(i: nat): nat
    requires i < RATES
  {
    if i == 0 then 115200 else if i == 1 then 3000000 else 3200000
  }

  /** The probe's own record: next rung, rungs handed out, and the answer. */
  datatype Identify = Identify(index: nat, attempts: nat, answered: bool, done: bool, rate: nat)

  const UNASKED := Identify(0, 0, false, false, 0)

  datatype Rung = Rung(next: Identify, rate: Option<nat>)

  function NextRate(id: Identify): Rung {
    if id.answered then Rung(id.(done := true), None)
    else if id.done then Rung(id, None)
    else if id.index >= RATES then Rung(id.(done := true), None)
    else Rung(id.(index := id.index + 1, attempts := id.attempts + 1), Some(Rate(id.index)))
  }

  function OnPacket(id: Identify, p: seq<byte>): Identify {
    if id.done || id.answered || id.attempts == 0 || id.attempts > RATES || ParseVersion(p).None? then id
    else id.(rate := Rate(id.attempts - 1), answered := true, done := true)
  }

  /** The driver's calls on the probe, in any order. */
  datatype Call = Ask | Packet(p: seq<byte>)

  /** The record together with the rates handed out so far. */
  datatype Probing = Probing(id: Identify, handed: seq<nat>)

  function Serve(q: Probing, c: Call): Probing {
    match c
    case Ask =>
      var r := NextRate(q.id);
      Probing(r.next, q.handed + if r.rate.Some? then [r.rate.value] else [])
    case Packet(p) => q.(id := OnPacket(q.id, p))
  }

  function ServeAll(q: Probing, calls: seq<Call>): Probing
    decreases |calls|
  {
    if calls == [] then q else ServeAll(Serve(q, calls[0]), calls[1..])
  }

  /** How often a rate was asked for before the answer was taken. */
  function AskedUnanswered(q: Probing, calls: seq<Call>): nat
    decreases |calls|
  {
    if calls == [] then 0
    else (if calls[0].Ask? && !q.id.answered then 1 else 0) + AskedUnanswered(Serve(q, calls[0]), calls[1..])
  }

  function Rates(n: nat): (r: seq<nat>)
    requires n <= RATES
    ensures |r| == n
  {
    [115200, 3000000, 3200000][..n]
  }

  predicate OnLadder(q: Probing) {
    && q.id.index == q.id.attempts <= RATES
    && q.handed == Rates(q.id.index)
    && (q.id.done ==> q.id.answered || q.id.index == RATES)
    && (q.id.answered ==> q.id.index > 0 && q.id.rate == q.handed[q.id.index - 1])
  }

  lemma ServeKeeps(q: Probing, c: Call)
    requires OnLadder(q)
    ensures var r := Serve(q, c);
            && OnLadder(r)
            && (q.id.answered ==> r.id.answered && r.id.rate == q.id.rate)
            && r.id.index == Min(RATES, q.id.index + if c.Ask? && !q.id.answered then 1 else 0)
  {
    if c.Ask? && q.id.index < RATES && !q.id.answered {
      assert Rates(q.id.index + 1) == Rates(q.id.index) + [Rate(q.id.index)];
    }
  }

  lemma {:induction false} ServeAllKeeps(q: Probing, calls: seq<Call>)
    requires OnLadder(q)
    ensures OnLadder(ServeAll(q, calls))
    ensures ServeAll(q, calls).id.index == Min(RATES, q.id.index + AskedUnanswered(q, calls))
    decreases |calls|
  {
    if calls != [] {
      ServeKeeps(q, calls[0]);
      ServeAllKeeps(Serve(q, calls[0]), calls[1..]);
    }
  }

  /**
   Over any run of calls the rates handed out are the three rates in order, each at most once, one for each
   time the driver asked before the answer; and the answer is credited to the last of them.
   */
  lemma EachRateOnce(calls: seq<Call>)
    ensures var q, n := ServeAll(Probing(UNASKED, []), calls), AskedUnanswered(Probing(UNASKED, []), calls);
            && q.handed == Rates(Min(RATES, n))
            && (q.id.answered ==> n > 0 && q.id.rate == q.handed[|q.handed| - 1])
  {
    ServeAllKeeps(Probing(UNASKED, []), calls);
  }

  datatype Pc =
    | Top
    | Draining
    | Choosing
    | SettingBaud
    | Purging
    | Waking
    | Starting
    | Arming
    | Writing
    | Waiting
    | Leaving
    | LastDrain
    | Reporting
    | Finished

  datatype Status = Good | NotFound | Bad

  /** What happens on the line, in order. */
  datatype Act = Set | Purge | SawCts | Wrote(ok: bool)

  /** rate is what the host UART really runs at, target the rung's rate, heard the rate when the answer came. */
  datatype Wire = Wire(target: nat, rate: nat, heard: nat)

  /** reading: a read is in flight; waiting is FsmWaitingForEvent; bad is a failed IdentifyReadStatus. */
  datatype Reader = Reader(pump: bool, reading: bool, waiting: bool, bad: bool)

  datatype End = End(status: Status, drained: bool, result: nat)

  datatype Sys = Sys(pc: Pc, id: Identify, wire: Wire, io: Reader, stop: bool, end: End, log: seq<Act>)

  function Begin(rate: nat): Sys {
    Sys(Top, UNASKED, Wire(0, rate, 0), Reader(false, false, false, false), false, End(Good, true, 0), [])
  }

  datatype Line = Accepted | Refused(moved: bool) | Broken(moved: bool)

  datatype Answer = Signalled | TimedOut | Cancelled | Faulted

  datatype Step =
    | BeginDrain
    | EndDrain(ok: bool)
    | Choose(budget: bool)
    | SetBaud(outcome: Line)
    | PurgeLine(ok: bool)
    | Wake(cts: bool)
    | StartPump(ok: bool, sent: bool)
    | Arm
    | Write(ok: bool, budget: bool)
    | Wait(answer: Answer)
    | BeginLastDrain
    | EndLastDrain(ok: bool)
    | Report
    | Packet(p: seq<byte>)
    | ReadFails
    | ReadRetires
    | RequestStop

  predicate Enabled(s: Sys, a: Step) {
    match a
    case BeginDrain => s.pc == Top
    case EndDrain(ok) => s.pc == Draining && (ok ==> !s.io.reading)
    case Choose(_) => s.pc == Choosing
    case SetBaud(_) => s.pc == SettingBaud
    case PurgeLine(_) => s.pc == Purging
    case Wake(_) => s.pc == Waking
    case StartPump(_, _) => s.pc == Starting
    case Arm => s.pc == Arming
    case Write(_, _) => s.pc == Writing
    case Wait(_) => s.pc == Waiting
    case BeginLastDrain => s.pc == Leaving
    case EndLastDrain(ok) => s.pc == LastDrain && (ok ==> !s.io.reading)
    case Report => s.pc == Reporting
    case Packet(_) => s.io.reading
    case ReadFails => s.io.reading
    case ReadRetires => s.io.reading && !s.io.pump
    case RequestStop => true
  }

  function Leave(s: Sys, status: Status): Sys {
    s.(pc := Leaving, end := s.end.(status := status))
  }

  function Settle(w: Wire, moved: bool): Wire {
    if moved then w.(rate := w.target) else w
  }

  /** After the drain: out of budget, a read fault, an answer that came late, or the next rung. */
  function Choice(s: Sys, budget: bool): Sys {
    if !budget || s.io.bad then Leave(s, Bad)
    else if s.id.answered then Leave(s, Good)
    else
      var r := NextRate(s.id);
      if r.rate.None? then Leave(s.(id := r.next), NotFound)
      else s.(id := r.next, wire := s.wire.(target := r.rate.value), pc := SettingBaud)
  }

  /** A refused rate may have reached the UART before the refusal; the ladder just climbs on. */
  function Tuned(s: Sys, outcome: Line): Sys {
    var t := s.(log := s.log + [Set]);
    match outcome
    case Accepted => t.(wire := Settle(s.wire, true), pc := Purging)
    case Refused(moved) => t.(wire := Settle(s.wire, moved), pc := Top)
    case Broken(moved) => Leave(t.(wire := Settle(s.wire, moved)), Bad)
  }

  /** The request has been written; the wait ended. */
  function Heard(s: Sys, answer: Answer): Sys {
    if answer == Cancelled || s.stop || s.io.bad then Leave(s, Bad)
    else if s.id.answered then Leave(s, Good)
    else if answer == TimedOut then s.(pc := Top)
    else Leave(s, Bad)
  }

  /** Cancellation, a stuck drain and a read fault outrank an answer. */
  function Verdict(s: Sys): Status {
    if s.end.status != Bad && (s.stop || !s.end.drained || s.io.bad) then Bad else s.end.status
  }

  function Reported(s: Sys): Sys {
    var v := Verdict(s);
    if v == Good && s.id.answered then
      s.(pc := Finished, end := End(v, s.end.drained, s.id.rate), id := s.id.(done := true))
    else
      s.(pc := Finished, end := End(v, s.end.drained, 0), id := s.id.(answered := false, rate := 0, done := true))
  }

  function Received(s: Sys, p: seq<byte>): Sys {
    if !s.io.waiting then s
    else
      var id := OnPacket(s.id, p);
      s.(id := id, wire := if id == s.id then s.wire else s.wire.(heard := s.wire.rate))
  }

  function Apply(s: Sys, a: Step): Sys
    requires Enabled(s, a)
  {
    match a
    case BeginDrain => s.(pc := Draining, io := s.io.(waiting := false, pump := false))
    case EndDrain(ok) => if ok then s.(pc := Choosing) else Leave(s, Bad)
    case Choose(budget) => Choice(s, budget)
    case SetBaud(outcome) => Tuned(s, outcome)
    case PurgeLine(ok) =>
      var t := s.(log := s.log + [Purge]);
      if ok then t.(pc := Waking) else Leave(t, Bad)
    case Wake(cts) => if cts then s.(pc := Starting, log := s.log + [SawCts]) else Leave(s, Bad)
    case StartPump(ok, sent) =>
      var t := s.(io := s.io.(pump := sent, reading := sent));
      if ok then t.(pc := Arming) else Leave(t, Bad)
    case Arm => if s.io.bad then Leave(s, Bad) else s.(io := s.io.(waiting := true), pc := Writing)
    case Write(ok, budget) =>
      var t := s.(log := s.log + [Wrote(ok)]);
      if ok && budget then t.(pc := Waiting) else Leave(t, Bad)
    case Wait(answer) => Heard(s, answer)
    case BeginLastDrain => s.(pc := LastDrain, io := s.io.(waiting := false, pump := false))
    case EndLastDrain(ok) => s.(pc := Reporting, end := s.end.(drained := ok))
    case Report => Reported(s)
    case Packet(p) => Received(s, p)
    case ReadFails => s.(io := s.io.(bad := true, reading := false))
    case ReadRetires => s.(io := s.io.(reading := false))
    case RequestStop => s.(stop := true)
  }

  predicate Runs(s: Sys, steps: seq<Step>)
    decreases |steps|
  {
    steps == [] || (Enabled(s, steps[0]) && Runs(Apply(s, steps[0]), steps[1..]))
  }

  function Run(s: Sys, steps: seq<Step>): Sys
    requires Runs(s, steps)
    decreases |steps|
  {
    if steps == [] then s else Run(Apply(s, steps[0]), steps[1..])
  }

  /* ---------------------------------------------------------------- what every run keeps */

  predicate TouchesLine(pc: Pc) {
    pc == Choosing || pc == SettingBaud || pc == Purging || pc == Waking || pc == Starting
  }

  predicate Over(pc: Pc) {
    pc == Leaving || pc == LastDrain || pc == Reporting || pc == Finished
  }

  predicate InRung(pc: Pc) {
    pc == Purging || pc == Waking || pc == Starting || pc == Arming || pc == Writing || pc == Waiting
  }

  /** No read is in flight while the line is touched. */
  predicate LineIsQuiet(s: Sys) {
    TouchesLine(s.pc) ==> !s.io.reading
  }

  predicate Credited(s: Sys) {
    0 < s.id.attempts <= RATES && s.wire.rate == Rate(s.id.attempts - 1)
  }

  /** While answers are taken the line runs at the rate of the rung they are credited to. */
  predicate RateIsTrue(s: Sys) {
    && s.id.index == s.id.attempts <= RATES
    && (InRung(s.pc) ==> Credited(s))
    && (s.pc == SettingBaud ==> 0 < s.id.attempts && s.wire.target == Rate(s.id.attempts - 1))
    && (s.io.waiting ==> Credited(s) && (s.pc == Writing || s.pc == Waiting || s.pc == Top || s.pc == Leaving))
    && (s.id.answered ==> s.id.rate == s.wire.heard)
  }

  predicate Honest(s: Sys) {
    && (s.pc != Finished ==> s.end.result == 0)
    && (s.end.result != 0 ==> s.end.status == Good && s.id.answered && s.end.result == s.wire.heard)
  }

  /** A write stands right after its own rung's rate, purge and sighting of CTS. */
  predicate Prepared(log: seq<Act>, i: nat)
    requires i <= |log|
  {
    i >= 3 && log[i - 1] == SawCts && log[i - 2] == Purge && log[i - 3] == Set
  }

  /** Every write was prepared, and none follows a failed write. */
  predicate Orderly(log: seq<Act>) {
    && (forall i :: 0 <= i < |log| && log[i].Wrote? ==> Prepared(log, i))
    && (forall i, j :: 0 <= i < j < |log| && log[i] == Wrote(false) ==> !log[j].Wrote?)
  }

  /** The last act set the line. */
  predicate JustSet(log: seq<Act>) {
    |log| >= 1 && log[|log| - 1] == Set
  }

  /** The line was set and then purged. */
  predicate JustPurged(log: seq<Act>) {
    |log| >= 2 && log[|log| - 1] == Purge && log[|log| - 2] == Set
  }

  predicate LogMatches(s: Sys) {
    && Orderly(s.log)
    && (Wrote(false) in s.log ==> Over(s.pc))
    && (s.pc == Purging ==> JustSet(s.log))
    && (s.pc == Waking ==> JustPurged(s.log))
    && (s.pc == Starting || s.pc == Arming || s.pc == Writing ==> Prepared(s.log, |s.log|))
  }

  predicate Inv(s: Sys) {
    LineIsQuiet(s) && RateIsTrue(s) && LogMatches(s) && Honest(s)
  }

  lemma PacketEffect(id: Identify, p: seq<byte>)
    ensures OnPacket(id, p) == id
            || (0 < id.attempts <= RATES && !id.answered
                && OnPacket(id, p) == id.(rate := Rate(id.attempts - 1), answered := true, done := true))
  {
  }

  lemma PacketKeeps(s: Sys, p: seq<byte>)
    requires Inv(s) && s.io.reading
    ensures Inv(Received(s, p))
  {
  }

  lemma QuietKept(s: Sys, a: Step)
    requires LineIsQuiet(s) && Enabled(s, a) && !a.Packet?
    ensures LineIsQuiet(Apply(s, a))
  {
  }

  lemma HonestKept(s: Sys, a: Step)
    requires Honest(s) && RateIsTrue(s) && Enabled(s, a) && !a.Packet?
    ensures Honest(Apply(s, a))
  {
  }

  /** The steps that neither hand out a rate nor move the line nor start or stop listening. */
  lemma RateCarriedOn(s: Sys, a: Step)
    requires RateIsTrue(s) && Enabled(s, a) && !a.Packet?
    requires !a.Choose? && !a.SetBaud? && !a.Report?
    ensures RateIsTrue(Apply(s, a))
  {
  }

  lemma RateKept(s: Sys, a: Step)
    requires RateIsTrue(s) && Enabled(s, a) && !a.Packet?
    ensures RateIsTrue(Apply(s, a))
  {
    if !a.Choose? && !a.SetBaud? && !a.Report? {
      RateCarriedOn(s, a);
    }
  }

  lemma OrderlyGrows(log: seq<Act>, a: Act)
    requires Orderly(log) && Wrote(false) !in log && (a.Wrote? ==> Prepared(log, |log|))
    ensures Orderly(log + [a])
    ensures a != Wrote(false) ==> Wrote(false) !in log + [a]
  {
  }

  /** A step of the line that ends the rung, or passes it on with one act more to its preparation. */
  predicate Extends(s: Sys, x: Sys, a: Act) {
    && x.log == s.log + [a] && a != Wrote(false) && !a.Wrote? && !Over(s.pc)
    && match x.pc
       case Purging => JustSet(x.log)
       case Waking => JustPurged(x.log)
       case Starting => Prepared(x.log, |x.log|)
       case Arming => false
       case Writing => false
       case _ => true
  }

  lemma ExtendedKept(s: Sys, x: Sys, a: Act)
    requires LogMatches(s) && Extends(s, x, a)
    ensures LogMatches(x)
  {
    OrderlyGrows(s.log, a);
  }

  lemma SetKept(s: Sys, outcome: Line)
    requires LogMatches(s) && s.pc == SettingBaud
    ensures LogMatches(Tuned(s, outcome))
  {
    ExtendedKept(s, Tuned(s, outcome), Set);
  }

  lemma PurgeKept(s: Sys, ok: bool)
    requires LogMatches(s) && s.pc == Purging
    ensures LogMatches(Apply(s, PurgeLine(ok)))
  {
    ExtendedKept(s, Apply(s, PurgeLine(ok)), Purge);
  }

  lemma WakeKept(s: Sys, cts: bool)
    requires LogMatches(s) && s.pc == Waking
    ensures LogMatches(Apply(s, Wake(cts)))
  {
    if cts {
      ExtendedKept(s, Apply(s, Wake(cts)), SawCts);
    } else {
      PassedOnKept(s, Leave(s, Bad));
    }
  }

  lemma WriteKept(s: Sys, ok: bool, budget: bool)
    requires LogMatches(s) && s.pc == Writing
    ensures LogMatches(Apply(s, Write(ok, budget)))
  {
    OrderlyGrows(s.log, Wrote(ok));
  }

  predicate ActsOnLine(a: Step) {
    a.SetBaud? || a.PurgeLine? || a.Wake? || a.Write?
  }

  /** The other steps leave the line alone and only pass a prepared rung on. */
  predicate PassesOn(s: Sys, x: Sys) {
    && x.log == s.log && (Over(s.pc) ==> Over(x.pc))
    && (x.pc == s.pc || x.pc == Arming || x.pc == Writing || !InRung(x.pc) || x.pc == Waiting)
    && (x.pc == Arming && s.pc != Arming ==> s.pc == Starting)
    && (x.pc == Writing && s.pc != Writing ==> s.pc == Arming)
  }

  lemma OthersPassOn(s: Sys, a: Step)
    requires Enabled(s, a) && !a.Packet? && !ActsOnLine(a)
    ensures PassesOn(s, Apply(s, a))
  {
  }

  lemma PassedOnKept(s: Sys, x: Sys)
    requires LogMatches(s) && PassesOn(s, x)
    ensures LogMatches(x)
  {
  }

  lemma LineActKept(s: Sys, a: Step)
    requires LogMatches(s) && Enabled(s, a) && ActsOnLine(a)
    ensures LogMatches(Apply(s, a))
  {
    match a
    case SetBaud(outcome) => SetKept(s, outcome);
    case PurgeLine(ok) => PurgeKept(s, ok);
    case Wake(cts) => WakeKept(s, cts);
    case Write(ok, budget) => WriteKept(s, ok, budget);
  }

  lemma LogKept(s: Sys, a: Step)
    requires LogMatches(s) && Enabled(s, a) && !a.Packet?
    ensures LogMatches(Apply(s, a))
  {
    if ActsOnLine(a) {
      LineActKept(s, a);
    } else {
      OthersPassOn(s, a);
      PassedOnKept(s, Apply(s, a));
    }
  }

  lemma StepKeeps(s: Sys, a: Step)
    requires Inv(s) && Enabled(s, a)
    ensures Inv(Apply(s, a))
  {
    if a.Packet? {
      PacketKeeps(s, a.p);
    } else {
      QuietKept(s, a);
      HonestKept(s, a);
      RateKept(s, a);
      LogKept(s, a);
    }
  }

  lemma {:induction false} RunKeeps(s: Sys, steps: seq<Step>)
    requires Inv(s) && Runs(s, steps)
    ensures Inv(Run(s, steps))
    decreases |steps|
  {
    if steps != [] {
      StepKeeps(s, steps[0]);
      RunKeeps(Apply(s, steps[0]), steps[1..]);
    }
  }

  /**
   The ladder against an adversarial line. In every interleaving the line is set, purged and woken only
   with no read in flight; every request is written right after CTS was seen in its own rung and none
   after a failed write; and a rate is reported only on overall success, and is the rate the line
   really ran at when the answer came, even when rungs were refused half-way.
   */
  lemma LadderSafe(rate: nat, steps: seq<Step>)
    requires Runs(Begin(rate), steps)
    ensures var s := Run(Begin(rate), steps);
            && (s.pc == SettingBaud || s.pc == Purging || s.pc == Waking ==> !s.io.reading)
            && Orderly(s.log)
            && (s.id.answered ==> s.id.rate == s.wire.heard)
            && (s.end.result != 0 ==> s.pc == Finished && s.end.status == Good && s.end.result == s.wire.heard)
  {
    RunKeeps(Begin(rate), steps);
  }

  /* ---------------------------------------------------------------- when a rate must be reported */

  /**
   Nothing goes wrong: nobody asks for a stop, no read fails, the drains end, the line and the writes work,
   though a rate may be refused, and a wait ends with an answer or in time.
   */
  predicate Smooth(s: Sys, a: Step) {
    match a
    case EndDrain(ok) => ok
    case Choose(budget) => budget
    case SetBaud(outcome) => !outcome.Broken?
    case PurgeLine(ok) => ok
    case Wake(cts) => cts
    case StartPump(ok, _) => ok
    case Write(ok, budget) => ok && budget
    case Wait(answer) => answer == TimedOut || (answer == Signalled && s.id.answered)
    case EndLastDrain(ok) => ok
    case ReadFails => false
    case RequestStop => false
    case _ => true
  }

  predicate RunsSmoothly(s: Sys, steps: seq<Step>)
    requires Runs(s, steps)
    decreases |steps|
  {
    steps == [] || (Smooth(s, steps[0]) && RunsSmoothly(Apply(s, steps[0]), steps[1..]))
  }

  /** Where a smooth ladder stands: an answer heard is an answer kept, and only silence at all rates ends it without. */
  predicate OnCourse(s: Sys) {
    && !s.stop && !s.io.bad && s.end.drained && s.end.status != Bad
    && s.id.index == s.id.attempts <= RATES
    && (s.id.done ==> s.id.answered || s.end.status == NotFound)
    && (s.pc != Finished ==> (s.id.answered <==> s.wire.heard != 0))
    && (s.id.answered ==> s.id.rate == s.wire.heard)
    && (Over(s.pc) && s.end.status == Good ==> s.id.answered)
    && (s.end.status == NotFound ==>
          Over(s.pc) && s.id.attempts == RATES && !s.io.waiting && s.wire.heard == 0 && !s.id.answered)
    && (s.pc == Choosing || s.pc == LastDrain || s.pc == Reporting || s.pc == Finished ==> !s.io.waiting)
    && (s.pc == Draining || TouchesLine(s.pc) || s.pc == Arming ==> !s.io.waiting)
    && (s.pc == Finished ==> s.end.result == s.wire.heard && (s.end.status == Good <==> s.wire.heard != 0))
  }

  lemma PacketOnCourse(s: Sys, p: seq<byte>)
    requires OnCourse(s) && RateIsTrue(s) && s.io.reading
    ensures OnCourse(Received(s, p))
  {
    PacketEffect(s.id, p);
  }

  /** The steps that decide something about the answer. */
  predicate Decides(a: Step) {
    a.Choose? || a.Wait? || a.Report?
  }

  lemma DecisionOnCourse(s: Sys, a: Step)
    requires OnCourse(s) && RateIsTrue(s) && Enabled(s, a) && Smooth(s, a) && Decides(a)
    ensures OnCourse(Apply(s, a))
  {
  }

  lemma RoutineOnCourse(s: Sys, a: Step)
    requires OnCourse(s) && RateIsTrue(s) && Enabled(s, a) && Smooth(s, a) && !a.Packet? && !Decides(a)
    ensures OnCourse(Apply(s, a))
  {
  }

  lemma StepOnCourse(s: Sys, a: Step)
    requires OnCourse(s) && RateIsTrue(s) && Enabled(s, a) && Smooth(s, a)
    ensures OnCourse(Apply(s, a))
  {
    if a.Packet? {
      PacketOnCourse(s, a.p);
    } else if Decides(a) {
      DecisionOnCourse(s, a);
    } else {
      RoutineOnCourse(s, a);
    }
  }

  lemma {:induction false} RunOnCourse(s: Sys, steps: seq<Step>)
    requires Inv(s) && OnCourse(s) && Runs(s, steps) && RunsSmoothly(s, steps)
    ensures OnCourse(Run(s, steps))
    decreases |steps|
  {
    if steps != [] {
      StepOnCourse(s, steps[0]);
      StepKeeps(s, steps[0]);
      RunOnCourse(Apply(s, steps[0]), steps[1..]);
    }
  }

  /**
   When a rate must be reported. A ladder on which nothing goes wrong, once finished, reports the rate the
   line ran at when the first answer was taken; without an answer it has tried all three rates and says so.
   */
  lemma LadderReports(rate: nat, steps: seq<Step>)
    requires Runs(Begin(rate), steps) && RunsSmoothly(Begin(rate), steps)
    ensures var s := Run(Begin(rate), steps);
            s.pc == Finished ==>
              && s.end.result == s.wire.heard
              && (s.end.status == Good <==> s.wire.heard != 0)
              && (s.end.status != Good ==> s.end.status == NotFound && s.id.attempts == 3)
  {
    RunOnCourse(Begin(rate), steps);
  }

  /* ---------------------------------------------------------------- exactly what is reported */

  /** A failure ends the ladder. */
  predicate Fails(a: Step) {
    match a
    case EndDrain(ok) => !ok
    case Choose(budget) => !budget
    case SetBaud(outcome) => outcome.Broken?
    case PurgeLine(ok) => !ok
    case Wake(cts) => !cts
    case StartPump(ok, _) => !ok
    case Write(ok, budget) => !(ok && budget)
    case Wait(answer) => answer == Cancelled
    case _ => false
  }

  predicate EndsBadly(s: Sys) {
    Over(s.pc) && s.end.status == Bad && s.end.result == 0
  }

  lemma FailureLeaves(s: Sys, a: Step)
    requires Inv(s) && Enabled(s, a)
    ensures Fails(a) || EndsBadly(s) ==> EndsBadly(Apply(s, a))
  {
  }

  /** Whatever happens after a failure, no rate is reported. */
  lemma {:induction false} FailureIsFinal(s: Sys, steps: seq<Step>)
    requires Inv(s) && Runs(s, steps)
    requires EndsBadly(s) || exists a <- steps :: Fails(a)
    ensures EndsBadly(Run(s, steps))
    decreases |steps|
  {
    if steps != [] {
      FailureLeaves(s, steps[0]);
      StepKeeps(s, steps[0]);
      if !Fails(steps[0]) && !EndsBadly(s) {
        var a :| a in steps && Fails(a);
        assert a in steps[1..];
      }
      FailureIsFinal(Apply(s, steps[0]), steps[1..]);
    }
  }

  lemma FaultStep(s: Sys, a: Step)
    requires Enabled(s, a) && s.pc != Finished
    ensures Apply(s, a).stop <==> s.stop || a == RequestStop
    ensures Apply(s, a).io.bad <==> s.io.bad || a == ReadFails
    ensures Apply(s, a).end.drained <==> if a.EndLastDrain? then a.ok else s.end.drained
    ensures a.EndLastDrain? ==> Apply(s, a).pc == Reporting
    ensures s.pc == Reporting && a != Report ==> Apply(s, a).pc == Reporting && !a.EndLastDrain?
    ensures a != Report ==> Apply(s, a).pc != Finished
  {
  }

  /** Until the report, the record of stops, read faults and the last drain is the run's. */
  lemma {:induction false} FaultsAreKept(s: Sys, steps: seq<Step>)
    requires Runs(s, steps) && Report !in steps && s.pc != Finished
    requires s.pc != Reporting ==> s.end.drained
    ensures var t := Run(s, steps);
            && t.pc != Finished
            && (t.stop <==> s.stop || RequestStop in steps)
            && (t.io.bad <==> s.io.bad || ReadFails in steps)
            && (t.end.drained <==> s.end.drained && EndLastDrain(false) !in steps)
    decreases |steps|
  {
    if steps != [] {
      FaultStep(s, steps[0]);
      FaultsAreKept(Apply(s, steps[0]), steps[1..]);
    }
  }

  lemma ReportStep(s: Sys, clean: bool)
    requires s.pc == Reporting && (clean <==> !s.stop && !s.io.bad && s.end.drained)
    requires s.id.answered ==> s.id.rate == s.wire.heard
    ensures var t, found := Reported(s), s.id.answered && s.end.status == Good && clean;
            && t.pc == Finished && t.end.result == (if found then s.wire.heard else 0)
            && t.end.status == (if clean then s.end.status else Bad)
            && (!found ==> !t.id.answered && t.id.rate == 0)
  {
  }

  /** Nobody asked for a stop, no read failed and the last drain ended. */
  predicate Undisturbed(steps: seq<Step>) {
    RequestStop !in steps && ReadFails !in steps && EndLastDrain(false) !in steps
  }

  /**
   Exactly what is reported. The ladder that stands before its report at the end of a run reports the rate
   the line ran at when the answer came if and only if there was one, no step failed and the run was
   undisturbed; otherwise it reports none and keeps no answer.
   */
  lemma ReportIsExact(rate: nat, steps: seq<Step>)
    requires Runs(Begin(rate), steps) && Report !in steps && Run(Begin(rate), steps).pc == Reporting
    ensures var s := Run(Begin(rate), steps);
            var t, found := Reported(s), s.id.answered && s.end.status == Good && Undisturbed(steps);
            && t.pc == Finished && t.end.result == (if found then s.wire.heard else 0)
            && t.end.status == (if Undisturbed(steps) then s.end.status else Bad)
            && (!found ==> !t.id.answered && t.id.rate == 0)
            && ((exists a <- steps :: Fails(a)) ==> !found && t.end.status == Bad)
  {
    var s := Run(Begin(rate), steps);
    RunKeeps(Begin(rate), steps);
    FaultsAreKept(Begin(rate), steps);
    if exists a <- steps :: Fails(a) {
      FailureIsFinal(Begin(rate), steps);
    }
    ReportStep(s, Undisturbed(steps));
  }

  /* ---------------------------------------------------------------- a chip that answers is found */

  /**
   What the driver does next on a good line, when the chip answers with p at rung i and at no other; the
   line may refuse the rates before it.
   */
  function Onward(s: Sys, i: nat, p: seq<byte>, refuse: bool): Step {
    match s.pc
    case Top => BeginDrain
    case Draining => if s.io.reading then ReadRetires else EndDrain(true)
    case Choosing => Choose(true)
    case SettingBaud => SetBaud(if refuse && s.id.attempts <= i then Refused(true) else Accepted)
    case Purging => PurgeLine(true)
    case Waking => Wake(true)
    case Starting => StartPump(true, true)
    case Arming => Arm
    case Writing => Write(true, true)
    case Waiting =>
      if s.id.answered then Wait(Signalled) else if s.id.attempts == i + 1 then Step.Packet(p) else Wait(TimedOut)
    case Leaving => BeginLastDrain
    case LastDrain => if s.io.reading then ReadRetires else EndLastDrain(true)
    case Reporting => Report
    case Finished => RequestStop
  }

  /** The rung is about to be left for the next one. */
  predicate BetweenRungs(pc: Pc) {
    pc == Top || pc == Draining || pc == Choosing
  }

  /** The ladder has not gone past rung i, and an answer is that rung's. */
  predicate Climbing(s: Sys, i: nat) {
    && OnCourse(s) && s.end.status == Good
    && (BetweenRungs(s.pc) ==> s.id.attempts <= i && !s.id.answered)
    && s.id.attempts <= i + 1 && (Over(s.pc) ==> s.id.answered)
    && (s.id.answered ==> (s.pc == Waiting || Over(s.pc)) && s.wire.heard == Rate(Min(i, 2)))
    && (s.pc == Arming || s.pc == Writing || s.pc == Waiting ==> s.io.reading)
    && (s.pc == Writing || s.pc == Waiting ==> s.io.waiting)
    && (s.pc == Draining || s.pc == LastDrain ==> !s.io.pump)
  }

  /** Steps left inside a rung, and then to the next one. */
  function StepsLeft(s: Sys): nat {
    match s.pc
    case SettingBaud => 12
    case Purging => 11
    case Waking => 10
    case Starting => 9
    case Arming => 8
    case Writing => 7
    case Waiting => if s.id.answered then 5 else 6
    case Top => 4
    case Draining => if s.io.reading then 3 else 2
    case Choosing => 1
    case Leaving => 4
    case LastDrain => if s.io.reading then 3 else 2
    case Reporting => 1
    case Finished => 0
  }

  function RungsLeft(s: Sys, i: nat): nat {
    if s.id.attempts <= i then i + 1 - s.id.attempts else 0
  }

  lemma OnwardIsSmooth(s: Sys, i: nat, p: seq<byte>, refuse: bool)
    requires Inv(s) && Climbing(s, i) && i < RATES && s.pc != Finished
    ensures Enabled(s, Onward(s, i, p, refuse)) && Smooth(s, Onward(s, i, p, refuse))
  {
  }

  /** The answer comes while it is awaited and is credited to the rung. */
  lemma AnswerIsTaken(s: Sys, i: nat, p: seq<byte>)
    requires Inv(s) && Climbing(s, i) && i < RATES && ParseVersion(p).Some?
    requires s.pc == Waiting && !s.id.answered && s.id.attempts == i + 1
    ensures var t := Received(s, p); Climbing(t, i) && t.pc == Waiting && t.id.answered
  {
    PacketOnCourse(s, p);
  }

  lemma RungGoesOn(s: Sys, i: nat, p: seq<byte>, refuse: bool)
    requires Inv(s) && Climbing(s, i) && i < RATES && s.pc != Finished && !Onward(s, i, p, refuse).Packet?
    requires Enabled(s, Onward(s, i, p, refuse)) && Smooth(s, Onward(s, i, p, refuse))
    requires OnCourse(Apply(s, Onward(s, i, p, refuse)))
    ensures var t := Apply(s, Onward(s, i, p, refuse));
            && Climbing(t, i) && (Over(s.pc) ==> Over(t.pc))
            && (Over(t.pc) == Over(s.pc) ==>
                  RungsLeft(t, i) < RungsLeft(s, i)
                  || (RungsLeft(t, i) == RungsLeft(s, i) && StepsLeft(t) < StepsLeft(s)))
  {
  }

  lemma FirstStep(s: Sys, a: Step, later: seq<Step>)
    requires Enabled(s, a) && Runs(Apply(s, a), later)
    ensures Runs(s, [a] + later) && Run(s, [a] + later) == Run(Apply(s, a), later)
  {
    assert ([a] + later)[1..] == later;
  }

  lemma FinishedReports(s: Sys, i: nat)
    requires Climbing(s, i) && i < RATES && s.pc == Finished
    ensures s.end.status == Good && s.end.result == [115200, 3000000, 3200000][i]
  {
  }

  /** One step further up, the measure of what is left goes down. */
  lemma OnwardGoesOn(s: Sys, i: nat, p: seq<byte>, refuse: bool)
    requires Inv(s) && Climbing(s, i) && i < RATES && s.pc != Finished && ParseVersion(p).Some?
    ensures Enabled(s, Onward(s, i, p, refuse))
    ensures var t := Apply(s, Onward(s, i, p, refuse));
            && Inv(t) && Climbing(t, i) && (Over(s.pc) ==> Over(t.pc))
            && (Over(t.pc) == Over(s.pc) ==>
                  RungsLeft(t, i) < RungsLeft(s, i)
                  || (RungsLeft(t, i) == RungsLeft(s, i) && StepsLeft(t) < StepsLeft(s)))
  {
    var a := Onward(s, i, p, refuse);
    OnwardIsSmooth(s, i, p, refuse);
    StepKeeps(s, a);
    if a.Packet? {
      AnswerIsTaken(s, i, p);
    } else {
      StepOnCourse(s, a);
      RungGoesOn(s, i, p, refuse);
    }
  }

  /** On a good line the ladder goes on to its end, with the answer of rung i. */
  lemma {:induction false} ChipIsFound(s: Sys, i: nat, p: seq<byte>, refuse: bool) returns (steps: seq<Step>)
    requires Inv(s) && Climbing(s, i) && i < RATES && ParseVersion(p).Some?
    ensures Runs(s, steps)
    ensures var t := Run(s, steps);
            t.pc == Finished && Climbing(t, i)
    decreases if Over(s.pc) then 0 else 1, RungsLeft(s, i), StepsLeft(s)
  {
    if s.pc == Finished {
      return [];
    }
    OnwardGoesOn(s, i, p, refuse);
    var a := Onward(s, i, p, refuse);
    var later := ChipIsFound(Apply(s, a), i, p, refuse);
    FirstStep(s, a, later);
    steps := [a] + later;
  }

  /** On a good line a chip that answers at one rung, whichever it is, is found there and reported. */
  lemma EveryChipIsFound(rate: nat, i: nat, p: seq<byte>, refuse: bool) returns (steps: seq<Step>)
    requires i < RATES && ParseVersion(p).Some?
    ensures Runs(Begin(rate), steps)
    ensures var s := Run(Begin(rate), steps);
            && s.pc == Finished && s.end.status == Good
            && s.end.result == [115200, 3000000, 3200000][i]
  {
    steps := ChipIsFound(Begin(rate), i, p, refuse);
    FinishedReports(Run(Begin(rate), steps), i);
  }
}
