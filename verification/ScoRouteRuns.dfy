/**
 The voice-route proxy between a host and a controller that answers in any order
 (src/common/sco_route.c).
 */
module ScoRouteRuns {
  import opened Bytes
  import opened Tlv
  import opened ScoRouteSpec

  const CAPACITY := 66

  /** A command on its way: the opcode the host gave it and the one the controller got. */
  datatype Command = Command(host: u16, wire: u16)

  /** An answer the host got: to which command, under which opcode. */
  datatype Answer = Answer(to: Command, shown: Option<u16>)

  datatype World = World(route: Route, waiting: seq<Command>, answers: seq<Answer>)

  datatype Step =
    | Submit(c: seq<byte>)
    | Reply(i: nat, e: seq<byte>)
    | OtherEvent(e: seq<byte>)

  /** What goes out for a command: its Enhanced form, or itself. */
  function OnWire(r: Route, c: seq<byte>): seq<byte> {
    var out := Rewrite(r, c, CAPACITY).out;
    if out.Some? then out.value else c
  }

  predicate Native(op: u16) {
    op == ENHANCED_SETUP || op == ENHANCED_ACCEPT
  }

  function Outstanding(q: seq<Command>, wire: u16): nat
    decreases |q|
  {
    if q == [] then 0 else Outstanding(q[1..], wire) + if q[0].wire == wire then 1 else 0
  }

  /** Each command is answered once, in any order; other events answer no Enhanced command. */
  predicate Enabled(w: World, s: Step) {
    match s
    case Submit(c) => |c| >= 2
    case Reply(i, e) => i < |w.waiting| && AnsweredOpcode(e) == Some(w.waiting[i].wire)
    case OtherEvent(e) => AnsweredOpcode(e).Some? ==> !Native(AnsweredOpcode(e).value)
  }

  function Without<T>(q: seq<T>, i: nat): seq<T>
    requires i < |q|
  {
    q[..i] + q[i + 1..]
  }

  function Apply(w: World, s: Step): World
    requires Enabled(w, s)
  {
    match s
    case Submit(c) =>
      OnWireIsCommand(w.route, c);
      World(Rewrite(w.route, c, CAPACITY).next,
            w.waiting + [Command(Opcode(c), Opcode(OnWire(w.route, c)))], w.answers)
    case Reply(i, e) =>
      var r := Restore(w.route, e);
      World(r.next, Without(w.waiting, i), w.answers + [Answer(w.waiting[i], AnsweredOpcode(r.event))])
    case OtherEvent(e) => w.(route := Restore(w.route, e).next)
  }

  lemma OnWireIsCommand(r: Route, c: seq<byte>)
    requires |c| >= 2
    ensures |OnWire(r, c)| >= 2
    ensures Opcode(OnWire(r, c)) == if Rewritable(c) then EnhancedOpcode(Opcode(c)) else Opcode(c)
    ensures Rewrite(r, c, CAPACITY).out.Some? <==> Rewritable(c)
  {
  }

  predicate Runs(w: World, steps: seq<Step>)
    decreases |steps|
  {
    steps == [] || (Enabled(w, steps[0]) && Runs(Apply(w, steps[0]), steps[1..]))
  }

  function Run(w: World, steps: seq<Step>): World
    requires Runs(w, steps)
    decreases |steps|
  {
    if steps == [] then w else Run(Apply(w, steps[0]), steps[1..])
  }

  /** The host sends no Enhanced command of its own and has fewer than 255 of a kind unanswered. */
  predicate Allowed(w: World, s: Step)
    requires Enabled(w, s)
  {
    s.Submit? ==>
      && !Native(Opcode(s.c))
      && Outstanding(w.waiting, ENHANCED_SETUP) < 255 && Outstanding(w.waiting, ENHANCED_ACCEPT) < 255
  }

  predicate WithinLimits(w: World, steps: seq<Step>)
    requires Runs(w, steps)
    decreases |steps|
  {
    steps == [] || (Allowed(w, steps[0]) && WithinLimits(Apply(w, steps[0]), steps[1..]))
  }

  const RESET := World(IDLE, [], [])

  /** A command in its own form, or one of the proxy's in the Enhanced form. */
  predicate Paired(c: Command) {
    || (c.wire == c.host && !Native(c.wire))
    || (c.host == SETUP && c.wire == ENHANCED_SETUP)
    || (c.host == ACCEPT && c.wire == ENHANCED_ACCEPT)
  }

  /** The proxy counts exactly its own commands that are still unanswered, and the host saw no other opcode. */
  predicate Inv(w: World) {
    && (forall c <- w.waiting :: Paired(c))
    && w.route.setup == Outstanding(w.waiting, ENHANCED_SETUP)
    && w.route.accept == Outstanding(w.waiting, ENHANCED_ACCEPT)
    && w.route.rewritten == w.route.restored + w.route.setup + w.route.accept
    && (forall a <- w.answers :: a.shown == Some(a.to.host))
  }

  lemma {:induction false} OutstandingAppend(q: seq<Command>, c: Command, wire: u16)
    ensures Outstanding(q + [c], wire) == Outstanding(q, wire) + if c.wire == wire then 1 else 0
    decreases |q|
  {
    if q == [] {
      assert [c][1..] == [];
      assert q + [c] == [c];
    } else {
      assert (q + [c])[1..] == q[1..] + [c];
      OutstandingAppend(q[1..], c, wire);
    }
  }

  lemma {:induction false} OutstandingWithout(q: seq<Command>, i: nat, wire: u16)
    requires i < |q|
    ensures Outstanding(q, wire) == Outstanding(Without(q, i), wire) + if q[i].wire == wire then 1 else 0
    decreases |q|
  {
    if i == 0 {
      assert Without(q, 0) == q[1..];
    } else {
      assert Without(q, i)[1..] == Without(q[1..], i - 1);
      assert Without(q, i)[0] == q[0];
      OutstandingWithout(q[1..], i - 1, wire);
    }
  }

  lemma SubmitKeeps(w: World, c: seq<byte>)
    requires Inv(w) && Enabled(w, Submit(c)) && Allowed(w, Submit(c))
    ensures Inv(Apply(w, Submit(c)))
  {
    OnWireIsCommand(w.route, c);
    var n := Command(Opcode(c), Opcode(OnWire(w.route, c)));
    OutstandingAppend(w.waiting, n, ENHANCED_SETUP);
    OutstandingAppend(w.waiting, n, ENHANCED_ACCEPT);
  }

  lemma ReplyKeeps(w: World, i: nat, e: seq<byte>)
    requires Inv(w) && Enabled(w, Reply(i, e))
    ensures Inv(Apply(w, Reply(i, e)))
  {
    var c := w.waiting[i];
    assert c in w.waiting;
    OutstandingWithout(w.waiting, i, ENHANCED_SETUP);
    OutstandingWithout(w.waiting, i, ENHANCED_ACCEPT);
    ShownOpcode(w.route, e);
    assert forall d <- Without(w.waiting, i) :: d in w.waiting;
  }

  /**
   The proxy is transparent: in every such run, in whatever order the controller answers, the host is
   shown exactly the opcodes it sent, and the commands rewritten are those restored and those pending.
   */
  lemma {:induction false} ProxyIsTransparent(w: World, steps: seq<Step>)
    requires Inv(w) && Runs(w, steps) && WithinLimits(w, steps)
    ensures Inv(Run(w, steps))
    decreases |steps|
  {
    if steps != [] {
      match steps[0] {
        case Submit(c) => SubmitKeeps(w, c);
        case Reply(i, e) => ReplyKeeps(w, i, e);
        case OtherEvent(e) => ShownOpcode(w.route, e);
      }
      ProxyIsTransparent(Apply(w, steps[0]), steps[1..]);
    }
  }

  lemma ProxyFromReset(steps: seq<Step>)
    requires Runs(RESET, steps) && WithinLimits(RESET, steps)
    ensures var w := Run(RESET, steps);
            && (forall a <- w.answers :: a.shown == Some(a.to.host))
            && w.route.rewritten == w.route.restored + w.route.setup + w.route.accept
            && w.route.setup == Outstanding(w.waiting, ENHANCED_SETUP)
            && w.route.accept == Outstanding(w.waiting, ENHANCED_ACCEPT)
  {
    ProxyIsTransparent(RESET, steps);
  }

  /* ---------------------------------------------------------------- outside the limits */

  /** x is one of the two Enhanced opcodes; Legacy(x) the opcode of the commands rewritten to it. */
  function Legacy(x: u16): u16 {
    if x == ENHANCED_SETUP then SETUP else ACCEPT
  }

  function Pending(r: Route, x: u16): nat {
    if x == ENHANCED_SETUP then r.setup else r.accept
  }

  /** The opcode an answer under x is shown with when p commands are counted. */
  function ShownWith(p: nat, x: u16): Option<u16> {
    Some(if p > 0 then Legacy(x) else x)
  }

  /** A command of the host's own Enhanced form, and one the proxy put into it. */
  predicate NativeTo(c: Command, x: u16) {
    c == Command(x, x)
  }

  predicate RewrittenTo(c: Command, x: u16) {
    c == Command(Legacy(x), x)
  }

  function RewrittenIn(q: seq<Command>, x: u16): nat
    decreases |q|
  {
    if q == [] then 0 else RewrittenIn(q[1..], x) + if RewrittenTo(q[0], x) then 1 else 0
  }

  /** Answers to the host's legacy commands that it got under the Enhanced opcode. */
  function LeftRaw(answers: seq<Answer>, x: u16): nat {
    if answers == [] then 0
    else
      var last := answers[|answers| - 1];
      LeftRaw(answers[..|answers| - 1], x) + if RewrittenTo(last.to, x) && last.shown == Some(x) then 1 else 0
  }

  /** Answers to the host's own Enhanced commands that it got under the legacy opcode. */
  function Stolen(answers: seq<Answer>, x: u16): nat {
    if answers == [] then 0
    else
      var last := answers[|answers| - 1];
      Stolen(answers[..|answers| - 1], x) + if NativeTo(last.to, x) && last.shown == Some(Legacy(x)) then 1 else 0
  }

  /** Whether step s rewrites a command to x that the count has no room for. */
  predicate Overflows(w: World, s: Step, x: u16) {
    s.Submit? && Rewritable(s.c) && EnhancedOpcode(Opcode(s.c)) == x && Pending(w.route, x) == 255
  }

  /** Commands of a run rewritten while 255 of the kind were already counted. */
  function Uncounted(w: World, steps: seq<Step>, x: u16): nat
    requires Runs(w, steps)
    decreases |steps|
  {
    if steps == [] then 0
    else
      (if Overflows(w, steps[0], x) then 1 else 0) + Uncounted(Apply(w, steps[0]), steps[1..], x)
  }

  /** Every command on the wire under x is native or rewritten, and no more are pending than are unanswered. */
  ghost predicate Sorted(w: World, x: u16) {
    && (forall c <- w.waiting :: c.wire == x ==> NativeTo(c, x) || RewrittenTo(c, x))
    && Pending(w.route, x) <= Outstanding(w.waiting, x)
    && Pending(w.route, x) <= 255
  }

  lemma {:induction false} RewrittenAppend(q: seq<Command>, c: Command, x: u16)
    ensures RewrittenIn(q + [c], x) == RewrittenIn(q, x) + if RewrittenTo(c, x) then 1 else 0
    decreases |q|
  {
    if q == [] {
      assert [c][1..] == [];
      assert q + [c] == [c];
    } else {
      assert (q + [c])[1..] == q[1..] + [c];
      RewrittenAppend(q[1..], c, x);
    }
  }

  lemma {:induction false} RewrittenWithout(q: seq<Command>, i: nat, x: u16)
    requires i < |q|
    ensures RewrittenIn(q, x) == RewrittenIn(Without(q, i), x) + if RewrittenTo(q[i], x) then 1 else 0
    decreases |q|
  {
    if i == 0 {
      assert Without(q, 0) == q[1..];
    } else {
      assert Without(q, i)[1..] == Without(q[1..], i - 1);
      assert Without(q, i)[0] == q[0];
      RewrittenWithout(q[1..], i - 1, x);
    }
  }

  /** A command sent: counted if it is rewritten and there is room in the count. */
  lemma SubmitEffect(w: World, c: seq<byte>, x: u16)
    requires Native(x) && Sorted(w, x) && |c| >= 2
    ensures var v, mine := Apply(w, Submit(c)), Rewritable(c) && EnhancedOpcode(Opcode(c)) == x;
            && Sorted(v, x) && v.answers == w.answers
            && Pending(v.route, x)
               == Pending(w.route, x) + (if mine && Pending(w.route, x) < 255 then 1 else 0)
            && RewrittenIn(v.waiting, x) == RewrittenIn(w.waiting, x) + if mine then 1 else 0
  {
    OnWireIsCommand(w.route, c);
    var n := Command(Opcode(c), Opcode(OnWire(w.route, c)));
    OutstandingAppend(w.waiting, n, x);
    RewrittenAppend(w.waiting, n, x);
  }

  /** An answer under x takes one off the count if there is one, and shows the legacy opcode exactly then. */
  lemma ReplyEffect(w: World, i: nat, e: seq<byte>, x: u16)
    requires Native(x) && Sorted(w, x) && Enabled(w, Reply(i, e))
    ensures var v, c, p := Apply(w, Reply(i, e)), w.waiting[i], Pending(w.route, x);
            && Sorted(v, x)
            && (c.wire == x ==>
                  && Pending(v.route, x) == (if p > 0 then p - 1 else 0)
                  && v.answers == w.answers + [Answer(c, ShownWith(p, x))])
            && (c.wire != x ==> Pending(v.route, x) == p && exists o :: v.answers == w.answers + [Answer(c, o)])
            && RewrittenIn(v.waiting, x) == RewrittenIn(w.waiting, x) - (if RewrittenTo(c, x) then 1 else 0)
            && Outstanding(v.waiting, x) == Outstanding(w.waiting, x) - (if c.wire == x then 1 else 0)
  {
    var v, c := Apply(w, Reply(i, e)), w.waiting[i];
    assert c in w.waiting;
    OutstandingWithout(w.waiting, i, x);
    RewrittenWithout(w.waiting, i, x);
    ShownOpcode(w.route, e);
    assert forall d <- v.waiting :: d in w.waiting;
    assert v.answers == w.answers + [Answer(c, AnsweredOpcode(Restore(w.route, e).event))];
  }

  /** What was misdirected, for one answer more. */
  lemma AnswerCounts(answers: seq<Answer>, a: Answer, x: u16)
    ensures LeftRaw(answers + [a], x)
            == LeftRaw(answers, x) + if RewrittenTo(a.to, x) && a.shown == Some(x) then 1 else 0
    ensures Stolen(answers + [a], x)
            == Stolen(answers, x) + if NativeTo(a.to, x) && a.shown == Some(Legacy(x)) then 1 else 0
  {
    assert (answers + [a])[..|answers|] == answers;
  }

  /** Restored answers owed to the host minus those it can still get: only uncounted commands change it. */
  function Shortfall(w: World, x: u16): int {
    LeftRaw(w.answers, x) + RewrittenIn(w.waiting, x) - Stolen(w.answers, x) - Pending(w.route, x)
  }

  lemma ReplyShortfall(w: World, i: nat, e: seq<byte>, x: u16)
    requires Native(x) && Sorted(w, x) && Enabled(w, Reply(i, e))
    ensures Shortfall(Apply(w, Reply(i, e)), x) == Shortfall(w, x)
  {
    ReplyEffect(w, i, e, x);
    var v := Apply(w, Reply(i, e));
    AnswerCounts(w.answers, v.answers[|w.answers|], x);
    assert w.waiting[i] in w.waiting;
  }

  lemma StepShortfall(w: World, s: Step, x: u16)
    requires Native(x) && Sorted(w, x) && Enabled(w, s)
    ensures Sorted(Apply(w, s), x)
    ensures Shortfall(Apply(w, s), x) == Shortfall(w, x) + if Overflows(w, s, x) then 1 else 0
  {
    match s
    case Submit(c) => SubmitEffect(w, c, x);
    case Reply(i, e) => ReplyEffect(w, i, e, x); ReplyShortfall(w, i, e, x);
    case OtherEvent(e) => ShownOpcode(w.route, e);
  }

  lemma {:induction false} ShortfallIsUncounted(w: World, steps: seq<Step>, x: u16)
    requires Native(x) && Sorted(w, x) && Runs(w, steps)
    ensures Sorted(Run(w, steps), x)
    ensures Shortfall(Run(w, steps), x) == Shortfall(w, x) + Uncounted(w, steps, x)
    decreases |steps|
  {
    if steps != [] {
      StepShortfall(w, steps[0], x);
      ShortfallIsUncounted(Apply(w, steps[0]), steps[1..], x);
    }
  }

  /**
   The price of counting. In every run from a reset, whatever the host sends: once every command of the kind
   is answered, as many answers to the host's legacy commands came under the Enhanced opcode as native
   answers came under the legacy one, plus the commands beyond the 255 that can be counted.
   */
  lemma LimitsAreReal(steps: seq<Step>, x: u16)
    requires Native(x) && Runs(RESET, steps)
    ensures var w := Run(RESET, steps);
            && LeftRaw(w.answers, x) + RewrittenIn(w.waiting, x)
               == Stolen(w.answers, x) + Pending(w.route, x) + Uncounted(RESET, steps, x)
            && (Outstanding(w.waiting, x) == 0 ==>
                  && LeftRaw(w.answers, x) == Stolen(w.answers, x) + Uncounted(RESET, steps, x)
                  && (LeftRaw(w.answers, x) == 0
                      <==> Stolen(w.answers, x) == 0 && Uncounted(RESET, steps, x) == 0))
  {
    ShortfallIsUncounted(RESET, steps, x);
    RewrittenIsOutstanding(Run(RESET, steps).waiting, x);
  }

  lemma {:induction false} RewrittenIsOutstanding(q: seq<Command>, x: u16)
    ensures RewrittenIn(q, x) <= Outstanding(q, x)
    decreases |q|
  {
    if q != [] {
      RewrittenIsOutstanding(q[1..], x);
    }
  }

  /* ---------------------------------------------------------------- the exact condition */

  /**
   The two things that go wrong, told from the traffic alone: a command to be rewritten while 255 rewritten
   ones of its kind are unanswered, or an answer to a native command while a rewritten one is.
   */
  predicate Confuses(w: World, s: Step, x: u16)
    requires Enabled(w, s)
  {
    match s
    case Submit(c) => Rewritable(c) && EnhancedOpcode(Opcode(c)) == x && RewrittenIn(w.waiting, x) >= 255
    case Reply(i, _) => NativeTo(w.waiting[i], x) && RewrittenIn(w.waiting, x) > 0
    case OtherEvent(_) => false
  }

  predicate NeverConfused(w: World, steps: seq<Step>, x: u16)
    requires Runs(w, steps)
    decreases |steps|
  {
    steps == [] || (!Confuses(w, steps[0], x) && NeverConfused(Apply(w, steps[0]), steps[1..], x))
  }

  /** The proxy counts exactly its own commands that are still unanswered. */
  ghost predicate InCount(w: World, x: u16) {
    Sorted(w, x) && Pending(w.route, x) == RewrittenIn(w.waiting, x)
  }

  /** Every answer under x came to the host under the opcode of the command it answers. */
  predicate ShownRight(answers: seq<Answer>, x: u16) {
    forall a <- answers :: a.to.wire == x ==> a.shown == Some(a.to.host)
  }

  lemma CountedReply(w: World, i: nat, e: seq<byte>, x: u16)
    requires Native(x) && InCount(w, x) && Enabled(w, Reply(i, e)) && !Confuses(w, Reply(i, e), x)
    ensures InCount(Apply(w, Reply(i, e)), x)
    ensures ShownRight(w.answers, x) ==> ShownRight(Apply(w, Reply(i, e)).answers, x)
  {
    ReplyEffect(w, i, e, x);
    assert w.waiting[i] in w.waiting;
    RewrittenWithout(w.waiting, i, x);
  }

  lemma CountedStep(w: World, s: Step, x: u16)
    requires Native(x) && InCount(w, x) && Enabled(w, s) && !Confuses(w, s, x)
    ensures InCount(Apply(w, s), x)
    ensures ShownRight(w.answers, x) ==> ShownRight(Apply(w, s).answers, x)
  {
    match s
    case Submit(c) => SubmitEffect(w, c, x);
    case Reply(i, e) => CountedReply(w, i, e, x);
    case OtherEvent(e) => ShownOpcode(w.route, e);
  }

  lemma {:induction false} CountedRun(w: World, steps: seq<Step>, x: u16)
    requires Native(x) && InCount(w, x) && Runs(w, steps) && NeverConfused(w, steps, x)
    ensures InCount(Run(w, steps), x)
    ensures ShownRight(w.answers, x) ==> ShownRight(Run(w, steps).answers, x)
    decreases |steps|
  {
    if steps != [] {
      CountedStep(w, steps[0], x);
      CountedRun(Apply(w, steps[0]), steps[1..], x);
    }
  }

  lemma StolenStays(w: World, s: Step, x: u16)
    requires Enabled(w, s)
    ensures Stolen(w.answers, x) <= Stolen(Apply(w, s).answers, x)
  {
    if s.Reply? {
      AnswerCounts(w.answers, Apply(w, s).answers[|w.answers|], x);
    }
  }

  lemma {:induction false} StolenStaysLong(w: World, steps: seq<Step>, x: u16)
    requires Runs(w, steps)
    ensures Stolen(w.answers, x) <= Stolen(Run(w, steps).answers, x)
    decreases |steps|
  {
    if steps != [] {
      StolenStays(w, steps[0], x);
      StolenStaysLong(Apply(w, steps[0]), steps[1..], x);
    }
  }

  /** The first confusion of a run is either a command not counted or an answer that goes astray. */
  lemma ConfusionShows(w: World, s: Step, x: u16)
    requires Native(x) && InCount(w, x) && Enabled(w, s) && Confuses(w, s, x)
    ensures Overflows(w, s, x) || Stolen(Apply(w, s).answers, x) > Stolen(w.answers, x)
  {
    if s.Reply? {
      ReplyEffect(w, s.i, s.e, x);
      AnswerCounts(w.answers, Apply(w, s).answers[|w.answers|], x);
    }
  }

  lemma {:induction false} ConfusionStays(w: World, steps: seq<Step>, x: u16)
    requires Native(x) && InCount(w, x) && Runs(w, steps) && !NeverConfused(w, steps, x)
    ensures Uncounted(w, steps, x) > 0 || Stolen(Run(w, steps).answers, x) > 0
    decreases |steps|
  {
    var v := Apply(w, steps[0]);
    if Confuses(w, steps[0], x) {
      ConfusionShows(w, steps[0], x);
      StolenStaysLong(v, steps[1..], x);
    } else {
      CountedStep(w, steps[0], x);
      ConfusionStays(v, steps[1..], x);
    }
  }

  lemma {:induction false} RightMeansNone(answers: seq<Answer>, x: u16)
    requires Native(x) && ShownRight(answers, x)
    ensures LeftRaw(answers, x) == 0 && Stolen(answers, x) == 0
    decreases |answers|
  {
    if answers != [] {
      RightMeansNone(answers[..|answers| - 1], x);
      assert answers[|answers| - 1] in answers;
    }
  }

  /**
   When the proxy is transparent, exactly. In every run from a reset, whatever the host sends and in whatever
   order the controller answers: as long as the traffic never confuses it, every answer of the kind is shown
   under the right opcode; and once all commands of the kind are answered, all were shown right if and only
   if it never did.
   */
  lemma TransparentExactly(steps: seq<Step>, x: u16)
    requires Native(x) && Runs(RESET, steps)
    ensures var w := Run(RESET, steps);
            && (NeverConfused(RESET, steps, x) ==> ShownRight(w.answers, x))
            && (Outstanding(w.waiting, x) == 0 ==>
                  && (ShownRight(w.answers, x) <==> NeverConfused(RESET, steps, x))
                  && (LeftRaw(w.answers, x) == 0 && Stolen(w.answers, x) == 0
                      <==> NeverConfused(RESET, steps, x)))
  {
    var w := Run(RESET, steps);
    LimitsAreReal(steps, x);
    if NeverConfused(RESET, steps, x) {
      CountedRun(RESET, steps, x);
    } else {
      ConfusionStays(RESET, steps, x);
    }
    if ShownRight(w.answers, x) {
      RightMeansNone(w.answers, x);
    }
  }

  /** Whatever is not an Enhanced command goes out, and is answered, as it is. */
  predicate Plain(w: World) {
    && (forall c <- w.waiting :: !Native(c.wire) ==> c.wire == c.host)
    && (forall a <- w.answers :: !Native(a.to.wire) ==> a.shown == Some(a.to.host))
  }

  lemma PlainStep(w: World, s: Step)
    requires Plain(w) && Enabled(w, s)
    ensures Plain(Apply(w, s))
  {
    match s
    case Submit(c) => OnWireIsCommand(w.route, c);
    case Reply(i, e) =>
      assert w.waiting[i] in w.waiting;
      assert forall d <- Without(w.waiting, i) :: d in w.waiting;
      ShownOpcode(w.route, e);
    case OtherEvent(_) =>
  }

  lemma {:induction false} PlainRun(w: World, steps: seq<Step>)
    requires Plain(w) && Runs(w, steps)
    ensures Plain(Run(w, steps))
    decreases |steps|
  {
    if steps != [] {
      PlainStep(w, steps[0]);
      PlainRun(Apply(w, steps[0]), steps[1..]);
    }
  }

  /** For both kinds together: the host is shown exactly the opcodes it sent if and only if neither is confused. */
  lemma ProxyExactly(steps: seq<Step>)
    requires Runs(RESET, steps)
    requires Outstanding(Run(RESET, steps).waiting, ENHANCED_SETUP) == 0
    requires Outstanding(Run(RESET, steps).waiting, ENHANCED_ACCEPT) == 0
    ensures (forall a <- Run(RESET, steps).answers :: a.shown == Some(a.to.host))
            <==> NeverConfused(RESET, steps, ENHANCED_SETUP) && NeverConfused(RESET, steps, ENHANCED_ACCEPT)
  {
    PlainRun(RESET, steps);
    TransparentExactly(steps, ENHANCED_SETUP);
    TransparentExactly(steps, ENHANCED_ACCEPT);
  }

  /* ---------------------------------------------------------------- many at once */

  /** What the host is shown for the answers under x, in order. */
  function ShownFor(answers: seq<Answer>, x: u16): seq<Option<u16>> {
    if answers == [] then []
    else
      var last := answers[|answers| - 1];
      ShownFor(answers[..|answers| - 1], x) + if last.to.wire == x then [last.shown] else []
  }

  function Down(p: nat): nat {
    if p > 0 then p - 1 else 0
  }

  /** n answers in a row, of which the first p come under the legacy opcode. */
  function FirstLegacy(n: nat, p: nat, x: u16): (r: seq<Option<u16>>)
    ensures |r| == n
    ensures forall i :: 0 <= i < n ==> r[i] == ShownWith(if i < p then p - i else 0, x)
  {
    if n == 0 then [] else [ShownWith(p, x)] + FirstLegacy(n - 1, Down(p), x)
  }

  lemma ShownOne(answers: seq<Answer>, a: Answer, x: u16)
    ensures ShownFor(answers + [a], x) == ShownFor(answers, x) + if a.to.wire == x then [a.shown] else []
  {
    assert (answers + [a])[..|answers|] == answers;
  }

  lemma {:induction false} SubmitsCount(w: World, subs: seq<Step>, x: u16)
    requires Native(x) && Sorted(w, x) && Runs(w, subs) && forall s <- subs :: s.Submit?
    requires Pending(w.route, x) == Min(RewrittenIn(w.waiting, x), 255)
    ensures var v := Run(w, subs);
            Sorted(v, x) && v.answers == w.answers && Pending(v.route, x) == Min(RewrittenIn(v.waiting, x), 255)
    decreases |subs|
  {
    if subs != [] {
      assert subs[0] in subs;
      SubmitEffect(w, subs[0].c, x);
      SubmitsCount(Apply(w, subs[0]), subs[1..], x);
    }
  }

  /** One step without a submission: an answer under x, shown by the count, or nothing under x. */
  lemma StepShown(w: World, s: Step, x: u16)
    requires Native(x) && Sorted(w, x) && Enabled(w, s) && !s.Submit?
    ensures var u, p := Apply(w, s), Pending(w.route, x);
            && Sorted(u, x)
            && if s.Reply? && w.waiting[s.i].wire == x then
                 && Outstanding(w.waiting, x) == Outstanding(u.waiting, x) + 1 && Pending(u.route, x) == Down(p)
                 && ShownFor(u.answers, x) == ShownFor(w.answers, x) + [ShownWith(p, x)]
               else
                 && Outstanding(w.waiting, x) == Outstanding(u.waiting, x) && Pending(u.route, x) == p
                 && ShownFor(u.answers, x) == ShownFor(w.answers, x)
  {
    match s {
      case Reply(i, e) =>
        ReplyEffect(w, i, e, x);
        ShownOne(w.answers, Apply(w, s).answers[|w.answers|], x);
      case OtherEvent(e) =>
        ShownOpcode(w.route, e);
      case Submit(_) =>
    }
  }

  lemma OneMore(before: seq<Option<u16>>, p: nat, n: nat, x: u16)
    ensures (before + [ShownWith(p, x)]) + FirstLegacy(n, Down(p), x) == before + FirstLegacy(n + 1, p, x)
  {
    Assoc(before, [ShownWith(p, x)], FirstLegacy(n, Down(p), x));
  }

  lemma {:induction false} RepliesShown(w: World, reps: seq<Step>, x: u16) returns (n: nat)
    requires Native(x) && Sorted(w, x) && Runs(w, reps) && forall s <- reps :: !s.Submit?
    ensures n == Outstanding(w.waiting, x) - Outstanding(Run(w, reps).waiting, x)
    ensures ShownFor(Run(w, reps).answers, x)
            == ShownFor(w.answers, x) + FirstLegacy(n, Pending(w.route, x), x)
    decreases |reps|
  {
    if reps == [] {
      n := 0;
      assert ShownFor(w.answers, x) + [] == ShownFor(w.answers, x);
    } else {
      assert reps[0] in reps;
      StepShown(w, reps[0], x);
      n := RepliesShown(Apply(w, reps[0]), reps[1..], x);
      if reps[0].Reply? && w.waiting[reps[0].i].wire == x {
        OneMore(ShownFor(w.answers, x), Pending(w.route, x), n, x);
        n := n + 1;
      }
    }
  }

  predicate AllLegacy(shown: seq<Option<u16>>, x: u16) {
    forall o <- shown :: o == Some(Legacy(x))
  }

  lemma LegacyUpTo255(k: nat, x: u16)
    requires Native(x)
    ensures AllLegacy(FirstLegacy(k, Min(k, 255), x), x) <==> k <= 255
  {
    var shown := FirstLegacy(k, Min(k, 255), x);
    if k > 255 {
      assert shown[255] in shown && shown[255] == Some(x);
    }
  }

  /**
   Between sent and end, of the answers under x exactly the first min(k, 255) were shown under the legacy
   opcode, where k is the number of commands rewritten. If k of them have come, all were shown right if and
   only if k is at most 255; otherwise exactly the last k - 255 were not.
   */
  predicate ShownUpTo255(sent: World, end: World, x: u16) {
    var k, shown := RewrittenIn(sent.waiting, x), ShownFor(end.answers, x);
    && Outstanding(end.waiting, x) + |shown| == Outstanding(sent.waiting, x)
    && shown == FirstLegacy(|shown|, Min(k, 255), x)
    && (|shown| == k ==> (AllLegacy(shown, x) <==> k <= 255))
  }

  lemma AnsweredAfter(sent: World, reps: seq<Step>, x: u16)
    requires Native(x) && Sorted(sent, x) && Runs(sent, reps) && forall s <- reps :: !s.Submit?
    requires sent.answers == [] && Pending(sent.route, x) == Min(RewrittenIn(sent.waiting, x), 255)
    ensures ShownUpTo255(sent, Run(sent, reps), x)
  {
    var n := RepliesShown(sent, reps, x);
    var k := RewrittenIn(sent.waiting, x);
    assert [] + FirstLegacy(n, Min(k, 255), x) == FirstLegacy(n, Min(k, 255), x);
    LegacyUpTo255(k, x);
  }

  /**
   The bound is exactly 255, for both kinds. The host sends what it likes, then the answers come, in any
   order, between other events.
   */
  lemma BoundIsExact(subs: seq<Step>, reps: seq<Step>, x: u16)
    requires Native(x) && Runs(RESET, subs) && Runs(Run(RESET, subs), reps)
    requires (forall s <- subs :: s.Submit?) && (forall s <- reps :: !s.Submit?)
    ensures ShownUpTo255(Run(RESET, subs), Run(Run(RESET, subs), reps), x)
  {
    SubmitsCount(RESET, subs, x);
    AnsweredAfter(Run(RESET, subs), reps, x);
  }
}
