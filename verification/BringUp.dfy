/**
 Whole runs of the bring-up: the machine, the driver that pumps it, and a controller that answers as it
 likes (src/driver/qca_uart.c).
 */
module BringUp {
  import opened Bytes
  import opened Tlv
  import opened Replies
  import opened NvmNames
  import opened InitFsmSpec
  import H4Spec

  /**
   dropped is the NVM image given up for the fallback and extra its segments counted by then. skip is the
   number of acknowledgements taken for the armed image while no command was unanswered, lost the same
   for the image given up.
   */
  datatype Past = Past(dropped: Armed, extra: nat, lost: nat, skip: nat)

  /**
   flag is FsmWaitingForEvent; owed: a sent command is unanswered and has not timed out; asked: the
   state last pumped. wire lists the commands written.
   */
  datatype World = World(
    fsm: Fsm, flag: bool, owed: bool, asked: State, wire: seq<seq<byte>>, past: Past)

  datatype Step =
    | Pump
    | Packet(p: seq<byte>)
    | BoardIdTimesOut
    | NvmTimesOut

  function Begin(f: Fsm): World {
    World(f, false, false, Start, [], Past(UNARMED, 0, 0, 0))
  }

  predicate Enabled(w: World, a: Step) {
    match a
    case Pump => !w.owed && w.fsm.state != Ready && w.fsm.state != Failed
    case Packet(_) => w.flag
    case BoardIdTimesOut => w.asked == BoardIdRequest && w.fsm.state != Failed
    case NvmTimesOut => w.asked == NvmDownload && w.fsm.state != Failed && !w.fsm.fallbackUsed
  }

  function Pumped(w: World): World {
    var m := Next(w.fsm);
    match m.action
    case Send(c) => World(m.next, true, true, w.fsm.state, w.wire + [c], w.past)
    case SendNoWait(c) => World(m.next, false, false, w.fsm.state, w.wire + [c], w.past)
    case SendBaudAndSwitch(c, _) => World(m.next, false, false, w.fsm.state, w.wire + [c], w.past)
    case Done => w.(fsm := m.next, flag := false, asked := w.fsm.state)
    case Fail => w.(fsm := m.next, flag := false, asked := w.fsm.state)
  }

  function Unanswered(w: World): nat {
    if w.owed then 1 else 0
  }

  function Apply(w: World, a: Step): World
    requires Enabled(w, a)
  {
    match a
    case Pump => Pumped(w)
    case Packet(p) =>
      var r := OnPacket(w.fsm, p);
      if !r.accepted then w.(fsm := r.next)
      else if w.owed then w.(fsm := r.next, flag := false, owed := false)
      else w.(fsm := r.next, flag := false, past := w.past.(skip := w.past.skip + 1))
    case BoardIdTimesOut => w.(fsm := OnBoardIdTimeout(w.fsm), owed := false, asked := Start)
    case NvmTimesOut =>
      w.(fsm := OnNvmFailure(w.fsm), owed := false, asked := Start,
         past := Past(w.fsm.nvm, w.fsm.nvmIndex + Unanswered(w), w.past.skip, 0))
  }

  predicate Runs(w: World, steps: seq<Step>)
    decreases |steps|
  {
    steps == [] || (Enabled(w, steps[0]) && Runs(Apply(w, steps[0]), steps[1..]))
  }

  function Run(w: World, steps: seq<Step>): World
    requires Runs(w, steps)
    decreases |steps|
  {
    if steps == [] then w else Run(Apply(w, steps[0]), steps[1..])
  }

  /** In the whole run no packet is taken unless the last command sent is unanswered and not given up. */
  predicate OnlyOwed(w: World, steps: seq<Step>)
    requires Runs(w, steps)
    decreases |steps|
  {
    steps == []
    || ((steps[0].Packet? && OnPacket(w.fsm, steps[0].p).accepted ==> w.owed)
        && OnlyOwed(Apply(w, steps[0]), steps[1..]))
  }

  /* ---------------------------------------------------------------- what is on the wire */

  /** The firmware bytes all download commands carried, in order. */
  function Carried(wire: seq<seq<byte>>): seq<byte>
    decreases |wire|
  {
    if wire == [] then [] else Carried(wire[..|wire| - 1]) + PayloadOf(wire[|wire| - 1])
  }

  lemma CarriedSnoc(wire: seq<seq<byte>>, c: seq<byte>)
    ensures Carried(wire + [c]) == Carried(wire) + PayloadOf(c)
  {
  }

  /** The NVM image with the one byte the wire changes. */
  function Patched(nvm: Armed, baudIndex: byte): seq<byte> {
    if nvm.offset < |nvm.image| then nvm.image[nvm.offset := baudIndex] else nvm.image
  }

  function PatchSegments(f: Fsm): nat {
    SegmentCount(|f.config.patch|)
  }

  function NvmSegments(f: Fsm): nat {
    SegmentCount(|f.nvm.image|)
  }

  /** The bytes of segments from up to but not including to. */
  function Stretch(d: seq<byte>, from: nat, to: nat): seq<byte>
    decreases to
  {
    if from >= to then [] else Stretch(d, from, to - 1) + Segment(d, to - 1)
  }

  lemma {:induction false} StretchIsPrefix(d: seq<byte>, n: nat)
    ensures Stretch(d, 0, n) == Prefix(d, n)
  {
    if n > 0 {
      StretchIsPrefix(d, n - 1);
      PrefixGrows(d, n - 1);
    }
  }

  lemma {:induction false} StretchSplits(d: seq<byte>, n: nat)
    requires n > 0
    ensures Stretch(d, 0, n) == Segment(d, 0) + Stretch(d, 1, n)
  {
    if n == 1 {
      assert Segment(d, 0) + [] == [] + Segment(d, 0);
      assert Stretch(d, 0, 0) == [];
    } else {
      StretchSplits(d, n - 1);
      Assoc(Segment(d, 0), Stretch(d, 1, n - 1), Segment(d, n - 1));
    }
  }

  lemma WholeStretch(d: seq<byte>, n: nat)
    requires n > 0 && 0 < |d| <= SEGMENT * n
    ensures Stretch(d, 0, n) == d && |Stretch(d, 1, n)| < |d|
  {
    StretchIsPrefix(d, n);
    StretchSplits(d, n);
    assert |Segment(d, 0)| > 0;
  }

  /** What had been sent of the image given up. */
  function AbandonedOf(past: Past, baudIndex: byte): seq<byte> {
    Stretch(Patched(past.dropped, baudIndex), past.lost, past.extra)
  }

  function Abandoned(w: World): seq<byte> {
    AbandonedOf(w.past, w.fsm.config.baudIndex)
  }

  /** The first n segments of the patch. */
  function PatchUpTo(f: Fsm, n: nat): seq<byte> {
    Stretch(f.config.patch, 0, n)
  }

  /** The segments of the armed image before n, those skipped apart. */
  function NvmUpTo(f: Fsm, past: Past, n: nat): seq<byte> {
    Stretch(Patched(f.nvm, f.config.baudIndex), past.skip, n)
  }

  predicate AfterNvm(s: State) {
    s == DisableLogging || s == BuildInfo || s == HciReset || s == ReadLocalVersion || s == Ready
  }

  /** The firmware bytes that belong on the wire by now, with n segments sent and not yet answered. */
  function DueOf(f: Fsm, past: Past, n: nat): seq<byte> {
    if f.state == PatchDownload then PatchUpTo(f, f.patchIndex + n)
    else if f.state == BoardIdRequest then PatchUpTo(f, PatchSegments(f))
    else if f.state == NvmDownload then
      PatchUpTo(f, PatchSegments(f)) + AbandonedOf(past, f.config.baudIndex) + NvmUpTo(f, past, f.nvmIndex + n)
    else if AfterNvm(f.state) then
      PatchUpTo(f, PatchSegments(f)) + AbandonedOf(past, f.config.baudIndex) + NvmUpTo(f, past, NvmSegments(f))
    else []
  }

  function Due(w: World): seq<byte> {
    DueOf(w.fsm, w.past, Unanswered(w))
  }

  /** The number of commands that belong on the wire by now. */
  function DueCountOf(f: Fsm, past: Past, n: nat): int {
    var given := past.extra - past.lost - past.skip;
    var after := PatchSegments(f) + given + NvmSegments(f) + n;
    match f.state
    case Start => 0
    case VersionRequest => 1
    case SetBaudRate => 1
    case PatchDownload => 2 + f.patchIndex + n
    case BoardIdRequest => 2 + PatchSegments(f) + n
    case NvmDownload => 3 + PatchSegments(f) + given + f.nvmIndex + n
    case DisableLogging => 3 + after
    case BuildInfo => 4 + after
    case HciReset => 5 + after
    case ReadLocalVersion => 6 + after
    case Ready => 7 + after
    case Failed => 0
  }

  function DueCount(w: World): int {
    DueCountOf(w.fsm, w.past, Unanswered(w))
  }

  /** What a successful initialisation establishes and nothing later changes. */
  predicate GoodConfig(c: Config) {
    && ParseTlv(c.patch).Some?
    && (forall d <- c.candidates :: Usable(d.image))
    && c.baudIndex <= 17
  }

  /** A candidate image with the place of its baud byte; every segment of it is acknowledged. */
  predicate GoodNvm(c: Config, nvm: Armed) {
    && BaudOffset(nvm.image) == Some(nvm.offset) && nvm.mode == 0
    && nvm.pick < |c.candidates| && nvm.image == c.candidates[nvm.pick].image
  }

  predicate Waiting(s: State) {
    Awaits(s).Some?
  }

  predicate BeforeNvm(s: State) {
    s == Start || s == VersionRequest || s == SetBaudRate || s == PatchDownload || s == BoardIdRequest
  }

  /** Where the machine can be, and that neither download ever runs past its last segment. */
  predicate Placed(w: World) {
    var f := w.fsm;
    && GoodConfig(f.config)
    && (f.state == Start || f.state == VersionRequest || f.state == SetBaudRate ==> f.patchIndex == 0)
    && (f.state == PatchDownload ==> f.patchIndex < PatchSegments(f))
    && (BeforeNvm(f.state) ==> !f.fallbackUsed && w.past.skip == 0)
    && (f.state == NvmDownload ==> f.nvmIndex < NvmSegments(f))
    && (f.state == NvmDownload || AfterNvm(f.state) ==> GoodNvm(f.config, f.nvm))
    && (f.fallbackUsed ==> GoodNvm(f.config, w.past.dropped))
    && (AfterNvm(f.state) ==> f.nvmIndex == NvmSegments(f))
    && (f.state != Failed && !f.fallbackUsed ==> w.past.extra == 0)
    && (f.state == NvmDownload || AfterNvm(f.state) ==> w.past.skip <= f.nvmIndex)
    && w.past.skip <= 1 && w.past.lost <= 1 && w.past.lost <= w.past.extra
  }

  /** An answer can only be outstanding, and a timeout only be noticed, for the command sent last. */
  predicate Timely(w: World) {
    var s := w.fsm.state;
    && (w.owed ==> Waiting(s) || s == Failed)
    && (s == VersionRequest ==> w.owed)
    && (w.owed ==> w.flag)
    && (w.flag && !w.owed ==>
          (s == NvmDownload && w.fsm.nvmIndex == 0 && w.past.skip == 0 && w.asked == Start) || s == Failed)
    && (w.asked == NvmDownload ==> s == NvmDownload || s == Failed || (s == DisableLogging && !w.owed))
    && (w.asked == BoardIdRequest ==>
          (s == BoardIdRequest && w.owed) || (s == NvmDownload && !w.owed) || s == Failed)
  }

  predicate Carries(w: World) {
    w.fsm.state != Failed ==> Carried(w.wire) == Due(w)
  }

  predicate Counts(w: World) {
    w.fsm.tally.sent == |w.wire| && (w.fsm.state != Failed ==> |w.wire| == DueCount(w))
  }

  /* ---------------------------------------------------------------- preservation */

  lemma PatchedSegment(nvm: Armed, i: nat, baudIndex: byte)
    requires BaudOffset(nvm.image) == Some(nvm.offset)
    ensures PayloadOf(NvmCommand(nvm, i, baudIndex)) == Segment(Patched(nvm, baudIndex), i)
  {
  }

  lemma NvmWhole(nvm: Armed, baudIndex: byte)
    requires BaudOffset(nvm.image) == Some(nvm.offset)
    ensures var all := Patched(nvm, baudIndex);
            && SegmentCount(|nvm.image|) > 0
            && Stretch(all, 0, SegmentCount(|nvm.image|)) == all
            && |Stretch(all, 1, SegmentCount(|nvm.image|))| < |all|
  {
    CountIsCeiling(nvm.image);
    WholeStretch(Patched(nvm, baudIndex), SegmentCount(|nvm.image|));
  }

  lemma PatchWhole(patch: seq<byte>)
    requires ParseTlv(patch).Some?
    ensures SegmentCount(|patch|) > 0 && Stretch(patch, 0, SegmentCount(|patch|)) == patch
  {
    CountIsCeiling(patch);
    WholeStretch(patch, SegmentCount(|patch|));
  }

  /** An image is armed from its first segment, or the bring-up ends. */
  lemma StartNvmArms(f: Fsm)
    requires GoodConfig(f.config)
    ensures var g := StartNvm(f);
            || g == GiveUp(f)
            || (GoodNvm(f.config, g.nvm) && g == f.(nvm := g.nvm, nvmIndex := 0, state := NvmDownload))
  {
  }

  lemma NvmFailureArms(f: Fsm)
    requires GoodConfig(f.config)
    ensures var g := OnNvmFailure(f);
            || g == GiveUp(f)
            || (GoodNvm(f.config, g.nvm) && !f.fallbackUsed
                && g == f.(nvm := g.nvm, nvmIndex := 0, fallbackUsed := true, state := NvmDownload))
  {
  }

  predicate SameCourse(f: Fsm, g: Fsm) {
    && g.config == f.config && g.patchIndex == f.patchIndex && g.fallbackUsed == f.fallbackUsed
    && g.tally.sent == f.tally.sent
  }

  /** The bring-up ended, or an image was armed and nothing of it is on the wire yet. */
  predicate Rearmed(f: Fsm, g: Fsm) {
    && g.config == f.config && g.patchIndex == f.patchIndex && g.tally.sent == f.tally.sent
    && (g.state == Failed || (g.state == NvmDownload && GoodNvm(f.config, g.nvm) && g.nvmIndex == 0))
  }

  /** An accepted answer moves the machine on by exactly one segment or one state. */
  predicate Answered(f: Fsm, g: Fsm) {
    match f.state
    case VersionRequest => SameCourse(f, g) && g.state == SetBaudRate
    case PatchDownload =>
      && g.config == f.config && g.fallbackUsed == f.fallbackUsed && g.tally.sent == f.tally.sent
      && g.patchIndex == f.patchIndex + 1
      && g.state == if g.patchIndex >= PatchSegments(f) then BoardIdRequest else PatchDownload
    case BoardIdRequest => Rearmed(f, g) && g.fallbackUsed == f.fallbackUsed && g.state != Failed
    case NvmDownload =>
      && SameCourse(f, g) && g.nvm == f.nvm && g.nvmIndex == f.nvmIndex + 1
      && g.state == if g.nvmIndex >= NvmSegments(f) then DisableLogging else NvmDownload
    case DisableLogging => SameCourse(f, g) && g.nvm == f.nvm && g.nvmIndex == f.nvmIndex && g.state == BuildInfo
    case BuildInfo => SameCourse(f, g) && g.nvm == f.nvm && g.nvmIndex == f.nvmIndex && g.state == HciReset
    case HciReset => SameCourse(f, g) && g.nvm == f.nvm && g.nvmIndex == f.nvmIndex && g.state == ReadLocalVersion
    case ReadLocalVersion => SameCourse(f, g) && g.nvm == f.nvm && g.nvmIndex == f.nvmIndex && g.state == Ready
    case _ => false
  }

  predicate Ignored(f: Fsm, g: Fsm) {
    SameCourse(f, g) && (g.state == Failed || (g.state == f.state && g.nvm == f.nvm && g.nvmIndex == f.nvmIndex))
  }

  lemma BoardIdEffect(f: Fsm, p: seq<byte>)
    requires GoodConfig(f.config) && f.state == BoardIdRequest && Takes(f.state, p)
    ensures var r := OnPacket(f, p); if r.accepted then Answered(f, r.next) else Ignored(f, r.next)
  {
  }

  lemma PacketEffect(f: Fsm, p: seq<byte>)
    requires GoodConfig(f.config)
    ensures var r := OnPacket(f, p); if r.accepted then Answered(f, r.next) else Ignored(f, r.next)
  {
    if f.state == BoardIdRequest && Takes(f.state, p) {
      BoardIdEffect(f, p);
    }
  }

  lemma BoardTimeoutEffect(f: Fsm)
    requires GoodConfig(f.config)
    ensures f.state == BoardIdRequest ==>
              Rearmed(f, OnBoardIdTimeout(f)) && OnBoardIdTimeout(f).fallbackUsed == f.fallbackUsed
    ensures f.state != BoardIdRequest ==> OnBoardIdTimeout(f) == f
  {
    StartNvmArms(f.(id := f.id.(boardId := 0, boardIdValid := false)));
  }

  lemma NvmFailureEffect(f: Fsm)
    requires GoodConfig(f.config) && !f.fallbackUsed
    ensures Rearmed(f, OnNvmFailure(f)) && (OnNvmFailure(f).state != Failed ==> OnNvmFailure(f).fallbackUsed)
  {
    NvmFailureArms(f);
  }

  lemma AnsweredPlaced(w: World, x: World)
    requires Placed(w) && Timely(w) && w.owed
    requires Answered(w.fsm, x.fsm) && x == w.(fsm := x.fsm, flag := false, owed := false)
    ensures Placed(x) && Timely(x)
  {
    CountIsCeiling(w.fsm.config.patch);
    if x.fsm.state == NvmDownload {
      NvmWhole(x.fsm.nvm, 0);
    }
  }

  lemma AnsweredCounts(w: World, x: World)
    requires Placed(w) && w.owed && Counts(w)
    requires Answered(w.fsm, x.fsm) && x == w.(fsm := x.fsm, flag := false, owed := false)
    ensures Counts(x)
  {
    CountIsCeiling(w.fsm.config.patch);
  }

  lemma PatchAnsweredCarries(w: World, x: World)
    requires w.owed && Carries(w) && w.fsm.state == PatchDownload && w.fsm.patchIndex < PatchSegments(w.fsm)
    requires Answered(w.fsm, x.fsm) && x == w.(fsm := x.fsm, flag := false, owed := false)
    ensures Carries(x)
  {
  }

  lemma NothingAfter(a: seq<byte>, b: seq<byte>, c: seq<byte>)
    requires c == []
    ensures a + b + c == a + b
    ensures b == [] ==> a + b + c == a
  {
  }

  lemma BoardAnsweredCarries(w: World, x: World)
    requires Placed(w) && w.owed && Carries(w) && w.fsm.state == BoardIdRequest
    requires Answered(w.fsm, x.fsm) && x == w.(fsm := x.fsm, flag := false, owed := false)
    ensures Carries(x)
  {
    NothingAfter(PatchUpTo(x.fsm, PatchSegments(x.fsm)), AbandonedOf(x.past, x.fsm.config.baudIndex),
                 NvmUpTo(x.fsm, x.past, 0));
  }

  /** A segment no longer unanswered is a segment counted. */
  lemma NvmDueMoves(f: Fsm, g: Fsm, past: Past)
    requires f.state == NvmDownload && g.config == f.config && g.nvm == f.nvm && g.nvmIndex == f.nvmIndex + 1
    requires g.state == NvmDownload || (AfterNvm(g.state) && g.nvmIndex == NvmSegments(f))
    ensures DueOf(g, past, 0) == DueOf(f, past, 1)
  {
    assert NvmUpTo(g, past, g.nvmIndex) == NvmUpTo(f, past, f.nvmIndex + 1);
  }

  lemma NvmAnsweredCarries(w: World, x: World)
    requires w.owed && Carries(w) && w.fsm.state == NvmDownload && w.fsm.nvmIndex < NvmSegments(w.fsm)
    requires Answered(w.fsm, x.fsm) && x == w.(fsm := x.fsm, flag := false, owed := false)
    ensures Carries(x)
  {
    NvmDueMoves(w.fsm, x.fsm, w.past);
  }

  /** The answer finds the whole segment on the wire. */
  lemma AnsweredCarries(w: World, x: World)
    requires Placed(w) && Timely(w) && w.owed && Carries(w)
    requires Answered(w.fsm, x.fsm) && x == w.(fsm := x.fsm, flag := false, owed := false)
    ensures Carries(x)
  {
    if w.fsm.state == PatchDownload {
      PatchAnsweredCarries(w, x);
    } else if w.fsm.state == BoardIdRequest {
      BoardAnsweredCarries(w, x);
    } else if w.fsm.state == NvmDownload {
      NvmAnsweredCarries(w, x);
    } else {
      assert Due(x) == Due(w);
    }
  }

  lemma IgnoredPlaced(w: World, x: World)
    requires Placed(w) && Ignored(w.fsm, x.fsm) && x == w.(fsm := x.fsm)
    ensures Placed(x)
  {
  }

  lemma IgnoredTimely(w: World, x: World)
    requires Timely(w) && Ignored(w.fsm, x.fsm) && x == w.(fsm := x.fsm)
    ensures Timely(x)
  {
  }

  lemma IgnoredCounts(w: World, x: World)
    requires Counts(w) && Ignored(w.fsm, x.fsm) && x == w.(fsm := x.fsm)
    ensures Counts(x)
  {
  }

  lemma IgnoredCarries(w: World, x: World)
    requires Carries(w) && Ignored(w.fsm, x.fsm) && x == w.(fsm := x.fsm)
    ensures Carries(x)
  {
    if x.fsm.state != Failed {
      assert Due(x) == Due(w);
    }
  }

  lemma IgnoredKeeps(w: World, x: World)
    requires Placed(w) && Timely(w) && Counts(w) && Carries(w)
    requires Ignored(w.fsm, x.fsm) && x == w.(fsm := x.fsm)
    ensures Placed(x) && Timely(x) && Counts(x) && Carries(x)
  {
    IgnoredPlaced(w, x);
    IgnoredTimely(w, x);
    IgnoredCounts(w, x);
    IgnoredCarries(w, x);
  }

  lemma BoardTimeoutKeeps(w: World, x: World)
    requires Placed(w) && Timely(w) && Counts(w) && Carries(w) && w.asked == BoardIdRequest
    requires w.fsm.state == BoardIdRequest && Rearmed(w.fsm, x.fsm) && x.fsm.fallbackUsed == w.fsm.fallbackUsed
    requires x == w.(fsm := x.fsm, owed := false, asked := Start)
    ensures Placed(x) && Timely(x) && Counts(x) && Carries(x)
  {
    if x.fsm.state == NvmDownload {
      NvmWhole(x.fsm.nvm, x.fsm.config.baudIndex);
      NothingAfter(PatchUpTo(x.fsm, PatchSegments(x.fsm)), AbandonedOf(x.past, x.fsm.config.baudIndex),
                   NvmUpTo(x.fsm, x.past, 0));
    }
  }

  /** What a fallback does to the world: the image given up is remembered with what was counted of it. */
  predicate GivesUp(w: World, x: World) {
    && !w.fsm.fallbackUsed && Rearmed(w.fsm, x.fsm) && (x.fsm.state != Failed ==> x.fsm.fallbackUsed)
    && x == w.(fsm := x.fsm, owed := false, asked := Start,
               past := Past(w.fsm.nvm, w.fsm.nvmIndex + Unanswered(w), w.past.skip, 0))
  }

  lemma NvmTimeoutPlaced(w: World, x: World)
    requires Placed(w) && Timely(w) && w.asked == NvmDownload && w.fsm.state != Failed && GivesUp(w, x)
    ensures Placed(x) && Timely(x)
  {
    if x.fsm.state == NvmDownload {
      NvmWhole(x.fsm.nvm, 0);
    }
  }

  lemma NvmTimeoutCounts(w: World, x: World)
    requires Counts(w) && FirstDownload(w) && w.past.lost == 0 && GivesUp(w, x)
    ensures Counts(x)
  {
  }

  /** The first image is being downloaded, or its last acknowledgement has just come. */
  predicate FirstDownload(w: World) {
    && w.past.extra == 0
    && (w.fsm.state == NvmDownload
        || (w.fsm.state == DisableLogging && !w.owed && w.fsm.nvmIndex == NvmSegments(w.fsm)))
  }

  lemma NothingArmedYet(f: Fsm, past: Past)
    requires f.state == NvmDownload && f.nvmIndex == 0
    ensures DueOf(f, past, 0) == PatchUpTo(f, PatchSegments(f)) + AbandonedOf(past, f.config.baudIndex)
  {
    NothingAfter(PatchUpTo(f, PatchSegments(f)), AbandonedOf(past, f.config.baudIndex), NvmUpTo(f, past, 0));
  }

  /** What had been sent of the image given up is exactly what is remembered of it. */
  lemma NvmTimeoutCarries(w: World, x: World)
    requires Carries(w) && FirstDownload(w) && GivesUp(w, x)
    ensures Carries(x)
  {
    if x.fsm.state == NvmDownload {
      SentSoFar(w);
      NothingArmedYet(x.fsm, x.past);
    }
  }

  lemma NothingBetween(a: seq<byte>, b: seq<byte>, c: seq<byte>)
    requires b == []
    ensures a + b + c == a + c
  {
  }

  lemma SentSoFar(w: World)
    requires Carries(w) && FirstDownload(w)
    ensures Carried(w.wire)
            == PatchUpTo(w.fsm, PatchSegments(w.fsm)) + NvmUpTo(w.fsm, w.past, w.fsm.nvmIndex + Unanswered(w))
  {
    NothingBetween(PatchUpTo(w.fsm, PatchSegments(w.fsm)), AbandonedOf(w.past, w.fsm.config.baudIndex),
                   NvmUpTo(w.fsm, w.past, w.fsm.nvmIndex + Unanswered(w)));
  }

  /* ---------------------------------------------------------------- sending a command */

  /** A patch segment is written; its index moves on at once only if another segment follows. */
  predicate PatchPumped(w: World, x: World) {
    var f := w.fsm;
    && x.wire == w.wire + [SegmentCommand(Segment(f.config.patch, f.patchIndex))]
    && x.past == w.past && x.asked == PatchDownload && x.flag == x.owed
    && x.fsm == (if x.owed then Count(f) else Count(f).(patchIndex := f.patchIndex + 1))
    && (!x.owed ==> f.patchIndex + 1 < PatchSegments(f))
  }

  /** An NVM segment is written and always waits for its acknowledgement. */
  predicate NvmPumped(w: World, x: World) {
    var f := w.fsm;
    x == World(Count(f), true, true, NvmDownload,
               w.wire + [NvmCommand(f.nvm, f.nvmIndex, f.config.baudIndex)], w.past)
  }

  /** A pump outside the downloads writes one command and moves at most to the next request. */
  predicate PlainlyPumped(w: World, x: World, c: seq<byte>) {
    var f := w.fsm;
    && x.wire == w.wire + [c] && x.past == w.past && x.asked == f.state && x.flag == x.owed
    && x.fsm == Count(f).(state := x.fsm.state)
    && if f.state == Start then x.owed && x.fsm.state == VersionRequest
       else if f.state == SetBaudRate then !x.owed && x.fsm.state == PatchDownload
       else x.owed && x.fsm.state == f.state && Waiting(f.state) && f.state != VersionRequest
  }

  lemma PumpPatchEffect(w: World)
    requires Placed(w) && Enabled(w, Pump) && w.fsm.state == PatchDownload
    ensures PatchPumped(w, Pumped(w))
  {
    LastIsAcked(w.fsm.config.patch, w.fsm.patchIndex, w.fsm.config.mode);
  }

  lemma PumpNvmEffect(w: World)
    requires Placed(w) && Enabled(w, Pump) && w.fsm.state == NvmDownload
    ensures NvmPumped(w, Pumped(w))
  {
  }

  lemma PumpPlainEffect(w: World)
    requires Placed(w) && Timely(w) && Enabled(w, Pump)
    requires w.fsm.state != PatchDownload && w.fsm.state != NvmDownload
    ensures var a := Next(w.fsm).action;
            (a.Send? || a.SendBaudAndSwitch?) && PlainlyPumped(w, Pumped(w), a.command)
  {
  }

  lemma PatchPumpedPlaced(w: World, x: World)
    requires Placed(w) && Timely(w) && !w.owed && w.fsm.state == PatchDownload && PatchPumped(w, x)
    ensures Placed(x) && Timely(x)
  {
  }

  lemma NvmPumpedPlaced(w: World, x: World)
    requires Placed(w) && Timely(w) && !w.owed && w.fsm.state == NvmDownload && NvmPumped(w, x)
    ensures Placed(x) && Timely(x)
  {
  }

  lemma PlainPumpedPlaced(w: World, x: World, c: seq<byte>)
    requires Placed(w) && !w.owed && PlainlyPumped(w, x, c)
    requires w.fsm.state != PatchDownload && w.fsm.state != NvmDownload && w.fsm.state != Failed
    ensures Placed(x)
  {
    CountIsCeiling(w.fsm.config.patch);
  }

  lemma PlainPumpedTimely(w: World, x: World, c: seq<byte>)
    requires Timely(w) && !w.owed && PlainlyPumped(w, x, c)
    requires w.fsm.state != PatchDownload && w.fsm.state != NvmDownload && w.fsm.state != Failed
    ensures Timely(x)
  {
  }

  lemma PatchPumpedCounts(w: World, x: World)
    requires Counts(w) && !w.owed && w.fsm.state == PatchDownload && PatchPumped(w, x)
    ensures Counts(x)
  {
  }

  lemma NvmPumpedCounts(w: World, x: World)
    requires Counts(w) && !w.owed && w.fsm.state == NvmDownload && NvmPumped(w, x)
    ensures Counts(x)
  {
  }

  lemma PlainPumpedCounts(w: World, x: World, c: seq<byte>)
    requires Counts(w) && !w.owed && PlainlyPumped(w, x, c)
    requires w.fsm.state == SetBaudRate ==> w.fsm.patchIndex == 0
    requires w.fsm.state != PatchDownload && w.fsm.state != NvmDownload && w.fsm.state != Failed
    ensures Counts(x)
  {
  }

  lemma SegmentCarried(s: seq<byte>)
    requires |s| <= SEGMENT
    ensures PayloadOf(SegmentCommand(s)) == s
  {
  }

  /** A command that carries the next segment of the patch keeps the wire in step with the index. */
  lemma PatchGrows(w: World, x: World, c: seq<byte>)
    requires Carries(w) && w.fsm.state == PatchDownload && !w.owed
    requires x.wire == w.wire + [c] && PayloadOf(c) == Segment(w.fsm.config.patch, w.fsm.patchIndex)
    requires x.fsm.state == PatchDownload && x.fsm.config == w.fsm.config
    requires x.fsm.patchIndex + Unanswered(x) == w.fsm.patchIndex + 1
    ensures Carries(x)
  {
    CarriedSnoc(w.wire, c);
  }

  lemma PatchPumpedCarries(w: World, x: World)
    requires Carries(w) && w.fsm.state == PatchDownload && !w.owed && PatchPumped(w, x)
    ensures Carries(x)
  {
    var segment := Segment(w.fsm.config.patch, w.fsm.patchIndex);
    SegmentCarried(segment);
    PatchGrows(w, x, SegmentCommand(segment));
  }

  lemma NvmDueGrows(f: Fsm, past: Past)
    requires f.state == NvmDownload && past.skip <= f.nvmIndex
    ensures DueOf(f, past, 1) == DueOf(f, past, 0) + Segment(Patched(f.nvm, f.config.baudIndex), f.nvmIndex)
  {
    var segment := Segment(Patched(f.nvm, f.config.baudIndex), f.nvmIndex);
    assert NvmUpTo(f, past, f.nvmIndex + 1) == NvmUpTo(f, past, f.nvmIndex) + segment;
    Assoc(PatchUpTo(f, PatchSegments(f)) + AbandonedOf(past, f.config.baudIndex), NvmUpTo(f, past, f.nvmIndex),
          segment);
  }

  lemma NvmGrows(w: World, x: World, c: seq<byte>)
    requires Carries(w) && w.fsm.state == NvmDownload && !w.owed && w.past.skip <= w.fsm.nvmIndex
    requires x.wire == w.wire + [c] && x.owed && x.past == w.past && x.fsm == Count(w.fsm)
    requires PayloadOf(c) == Segment(Patched(w.fsm.nvm, w.fsm.config.baudIndex), w.fsm.nvmIndex)
    ensures Carries(x)
  {
    CarriedSnoc(w.wire, c);
    NvmDueGrows(w.fsm, w.past);
    CountKeepsDue(w.fsm, w.past, 1);
  }

  lemma CountKeepsDue(f: Fsm, past: Past, n: nat)
    ensures DueOf(Count(f), past, n) == DueOf(f, past, n)
  {
  }

  lemma NvmPumpedCarries(w: World, x: World)
    requires Carries(w) && w.fsm.state == NvmDownload && !w.owed && NvmPumped(w, x)
    requires GoodNvm(w.fsm.config, w.fsm.nvm) && w.past.skip <= w.fsm.nvmIndex
    ensures Carries(x)
  {
    PatchedSegment(w.fsm.nvm, w.fsm.nvmIndex, w.fsm.config.baudIndex);
    NvmGrows(w, x, NvmCommand(w.fsm.nvm, w.fsm.nvmIndex, w.fsm.config.baudIndex));
  }

  /** No other command carries firmware bytes. */
  lemma PlainCarriesNothing(f: Fsm)
    requires f.state != PatchDownload && f.state != NvmDownload
    ensures var a := Next(f).action;
            a.Send? || a.SendNoWait? || a.SendBaudAndSwitch? ==> PayloadOf(a.command) == []
  {
  }

  lemma PlainPumpedCarries(w: World, x: World, c: seq<byte>)
    requires Carries(w) && PlainlyPumped(w, x, c) && PayloadOf(c) == [] && !w.owed
    requires w.fsm.state == SetBaudRate ==> w.fsm.patchIndex == 0
    requires w.fsm.state != PatchDownload && w.fsm.state != NvmDownload && w.fsm.state != Failed
    ensures Carries(x)
  {
    CarriedSnoc(w.wire, c);
    assert Carried(w.wire) + [] == Carried(w.wire);
  }

  predicate Faithful(w: World) {
    Placed(w) && Timely(w) && Counts(w) && Carries(w)
  }

  lemma PumpKeeps(w: World)
    requires Faithful(w) && Enabled(w, Pump)
    ensures Faithful(Pumped(w))
  {
    var x := Pumped(w);
    if w.fsm.state == PatchDownload {
      PumpPatchEffect(w);
      PatchPumpedPlaced(w, x);
      PatchPumpedCounts(w, x);
      PatchPumpedCarries(w, x);
    } else if w.fsm.state == NvmDownload {
      PumpNvmEffect(w);
      NvmPumpedPlaced(w, x);
      NvmPumpedCounts(w, x);
      NvmPumpedCarries(w, x);
    } else {
      PumpPlainEffect(w);
      var c := Next(w.fsm).action.command;
      PlainCarriesNothing(w.fsm);
      PlainPumpedPlaced(w, x, c);
      PlainPumpedTimely(w, x, c);
      PlainPumpedCounts(w, x, c);
      PlainPumpedCarries(w, x, c);
    }
  }

  lemma OwedPacketKeeps(w: World, p: seq<byte>)
    requires Faithful(w) && w.owed
    ensures Faithful(Apply(w, Packet(p)))
  {
    var x := Apply(w, Packet(p));
    PacketEffect(w.fsm, p);
    if OnPacket(w.fsm, p).accepted {
      AnsweredPlaced(w, x);
      AnsweredCounts(w, x);
      AnsweredCarries(w, x);
    } else {
      IgnoredKeeps(w, x);
    }
  }

  /** Taken while nothing is owed, an acknowledgement counts the first segment, which is not on the wire. */
  lemma LateAnswerKeeps(w: World, x: World)
    requires Faithful(w) && w.flag && !w.owed && Answered(w.fsm, x.fsm)
    requires x == w.(fsm := x.fsm, flag := false, past := w.past.(skip := w.past.skip + 1))
    ensures Faithful(x) && x.past.skip == 1
  {
    assert NvmUpTo(w.fsm, w.past, 0) == [] && NvmUpTo(x.fsm, x.past, 1) == [];
  }

  lemma PacketKeeps(w: World, p: seq<byte>)
    requires Faithful(w) && Enabled(w, Packet(p))
    ensures Faithful(Apply(w, Packet(p)))
  {
    PacketEffect(w.fsm, p);
    var x := Apply(w, Packet(p));
    if w.owed {
      OwedPacketKeeps(w, p);
    } else if OnPacket(w.fsm, p).accepted {
      LateAnswerKeeps(w, x);
    } else {
      IgnoredKeeps(w, x);
    }
  }

  /** The answer came in time after all; only the timer is forgotten. */
  lemma StaleTimeoutKeeps(w: World, x: World)
    requires Faithful(w) && !w.owed && w.fsm.state == NvmDownload && w.asked == BoardIdRequest
    requires x == w.(asked := Start)
    ensures Faithful(x)
  {
  }

  lemma BoardIdTimesOutKeeps(w: World)
    requires Faithful(w) && Enabled(w, BoardIdTimesOut)
    ensures Faithful(Apply(w, BoardIdTimesOut))
  {
    BoardTimeoutEffect(w.fsm);
    if w.fsm.state == BoardIdRequest {
      BoardTimeoutKeeps(w, Apply(w, BoardIdTimesOut));
    } else {
      StaleTimeoutKeeps(w, Apply(w, BoardIdTimesOut));
    }
  }

  lemma NvmTimesOutKeeps(w: World)
    requires Faithful(w) && Enabled(w, NvmTimesOut)
    ensures Faithful(Apply(w, NvmTimesOut))
  {
    NvmFailureEffect(w.fsm);
    var x := Apply(w, NvmTimesOut);
    NvmTimeoutPlaced(w, x);
    NvmTimeoutCounts(w, x);
    NvmTimeoutCarries(w, x);
  }

  lemma StepKeeps(w: World, a: Step)
    requires Faithful(w) && Enabled(w, a)
    ensures Faithful(Apply(w, a))
  {
    match a
    case Pump => PumpKeeps(w);
    case Packet(p) => PacketKeeps(w, p);
    case BoardIdTimesOut => BoardIdTimesOutKeeps(w);
    case NvmTimesOut => NvmTimesOutKeeps(w);
  }

  lemma {:induction false} RunKeeps(w: World, steps: seq<Step>)
    requires Faithful(w) && Runs(w, steps)
    ensures Faithful(Run(w, steps)) && Run(w, steps).fsm.config == w.fsm.config
    decreases |steps|
  {
    if steps != [] {
      StepKeeps(w, steps[0]);
      ConfigStays(w, steps[0]);
      RunKeeps(Apply(w, steps[0]), steps[1..]);
    }
  }

  lemma ConfigStays(w: World, a: Step)
    requires Faithful(w) && Enabled(w, a)
    ensures Apply(w, a).fsm.config == w.fsm.config
  {
    match a
    case Pump => NextKeepsConfig(w.fsm);
    case Packet(p) => PacketEffect(w.fsm, p);
    case BoardIdTimesOut => BoardTimeoutEffect(w.fsm);
    case NvmTimesOut => NvmFailureEffect(w.fsm);
  }

  lemma NextKeepsConfig(f: Fsm)
    ensures Next(f).next.config == f.config
  {
  }

  lemma BeginFaithful(patch: seq<byte>, candidates: seq<Candidate>, rate: nat)
    requires Init(patch, candidates, rate).Some?
    ensures Faithful(Begin(Init(patch, candidates, rate).value))
  {
  }

  /* ---------------------------------------------------------------- which image */

  /** The image named after the board, and the one for any board of the chip. */
  function BoardImage(id: Identity): string {
    NvmName(id.soc.socId, id.soc.romVersion, id.boardId)
  }

  function GenericImage(id: Identity): string {
    NvmName(id.soc.socId, id.soc.romVersion, 0)
  }

  predicate Offered(c: Config, name: string) {
    exists d <- c.candidates :: SameName(d.name, name)
  }

  /** The armed image is the first candidate of this name. */
  predicate IsFirst(c: Config, nvm: Armed, name: string) {
    && nvm.name == name && nvm.pick < |c.candidates| && SameName(c.candidates[nvm.pick].name, name)
    && forall j :: 0 <= j < nvm.pick ==> !SameName(c.candidates[j].name, name)
  }

  /** The board's own image if there is one, otherwise the generic one; after the fallback the generic one. */
  predicate Chosen(f: Fsm, dropped: Armed) {
    f.state == NvmDownload || AfterNvm(f.state) ==>
      if f.fallbackUsed then
        && IsFirst(f.config, f.nvm, GenericImage(f.id))
        && KnownBoard(f.id.boardId) && IsFirst(f.config, dropped, BoardImage(f.id))
      else if Offered(f.config, BoardImage(f.id)) then IsFirst(f.config, f.nvm, BoardImage(f.id))
      else IsFirst(f.config, f.nvm, GenericImage(f.id))
  }

  lemma FindIsOffered(c: Config, name: string)
    ensures Find(c.candidates, name) < |c.candidates| <==> Offered(c, name)
  {
    var i := Find(c.candidates, name);
    if i < |c.candidates| {
      assert c.candidates[i] in c.candidates;
    }
  }

  lemma ArmNamedIsFirst(f: Fsm, name: string)
    requires ArmNamed(f, name).Some?
    ensures IsFirst(f.config, ArmNamed(f, name).value.nvm, name)
    ensures ArmNamed(f, name).value == f.(nvm := ArmNamed(f, name).value.nvm, nvmIndex := 0)
  {
  }

  lemma SelectionIsRight(f: Fsm, dropped: Armed)
    requires !f.fallbackUsed && StartNvm(f).state == NvmDownload && f.state == BoardIdRequest
    ensures Chosen(StartNvm(f), dropped) && StartNvm(f).id == f.id
  {
    var board, generic := BoardImage(f.id), GenericImage(f.id);
    FallbackIsGeneric(f.id.soc.socId, f.id.soc.romVersion, f.id.boardId);
    FindIsOffered(f.config, board);
    if Offered(f.config, board) {
      ArmNamedIsFirst(f, board);
    } else {
      ArmNamedIsFirst(f, generic);
    }
  }

  lemma FallbackIsRight(f: Fsm, dropped: Armed)
    requires Chosen(f, dropped) && !f.fallbackUsed && (f.state == NvmDownload || AfterNvm(f.state))
    requires OnNvmFailure(f).state != Failed
    ensures Chosen(OnNvmFailure(f), f.nvm) && OnNvmFailure(f).id == f.id
  {
    FallbackIsGeneric(f.id.soc.socId, f.id.soc.romVersion, f.id.boardId);
    ArmNamedIsFirst(f, GenericImage(f.id));
  }

  predicate Downloading(s: State) {
    s == NvmDownload || AfterNvm(s)
  }

  /** Nothing that decided on the image has changed. */
  predicate SameChoice(f: Fsm, g: Fsm) {
    && (Downloading(g.state) ==> Downloading(f.state))
    && (Downloading(f.state) ==>
          g.config == f.config && g.nvm == f.nvm && g.id == f.id && g.fallbackUsed == f.fallbackUsed)
  }

  lemma SameChoiceChosen(f: Fsm, g: Fsm, dropped: Armed)
    requires Chosen(f, dropped) && SameChoice(f, g)
    ensures Chosen(g, dropped)
  {
  }

  lemma AnswerKeepsChoice(f: Fsm, p: seq<byte>)
    requires f.state != BoardIdRequest || !Takes(f.state, p)
    ensures SameChoice(f, OnPacket(f, p).next)
  {
  }

  lemma PumpKeepsChoice(f: Fsm)
    ensures SameChoice(f, Next(f).next)
  {
  }

  lemma PumpedFsm(w: World)
    ensures Pumped(w).fsm == Next(w.fsm).next && Pumped(w).past == w.past
  {
  }

  /** An image is chosen when the board becomes known, or will not be. */
  lemma BoardChooses(g: Fsm, dropped: Armed)
    requires g.state == BoardIdRequest && !g.fallbackUsed
    ensures Chosen(StartNvm(g), dropped)
  {
    if StartNvm(g).state == NvmDownload {
      SelectionIsRight(g, dropped);
    }
  }

  lemma PacketChooses(f: Fsm, p: seq<byte>, dropped: Armed)
    requires Chosen(f, dropped) && (f.state == BoardIdRequest ==> !f.fallbackUsed)
    ensures Chosen(OnPacket(f, p).next, dropped)
  {
    if f.state == BoardIdRequest && Takes(f.state, p) {
      BoardChooses(WithBoard(Handled(f), ParseBoardId(p).value), dropped);
    } else {
      AnswerKeepsChoice(f, p);
      SameChoiceChosen(f, OnPacket(f, p).next, dropped);
    }
  }

  lemma StepChooses(w: World, a: Step)
    requires Faithful(w) && Chosen(w.fsm, w.past.dropped) && Enabled(w, a)
    ensures Chosen(Apply(w, a).fsm, Apply(w, a).past.dropped)
  {
    match a
    case Pump =>
      PumpedFsm(w);
      PumpKeepsChoice(w.fsm);
      SameChoiceChosen(w.fsm, Next(w.fsm).next, w.past.dropped);
    case Packet(p) =>
      PacketChooses(w.fsm, p, w.past.dropped);
    case BoardIdTimesOut =>
      if w.fsm.state == BoardIdRequest {
        BoardChooses(w.fsm.(id := w.fsm.id.(boardId := 0, boardIdValid := false)), w.past.dropped);
      }
    case NvmTimesOut =>
      if OnNvmFailure(w.fsm).state != Failed {
        FallbackIsRight(w.fsm, w.past.dropped);
      }
  }

  lemma {:induction false} RunChooses(w: World, steps: seq<Step>)
    requires Faithful(w) && Chosen(w.fsm, w.past.dropped) && Runs(w, steps)
    ensures Chosen(Run(w, steps).fsm, Run(w, steps).past.dropped)
    decreases |steps|
  {
    if steps != [] {
      StepKeeps(w, steps[0]);
      StepChooses(w, steps[0]);
      RunChooses(Apply(w, steps[0]), steps[1..]);
    }
  }

  /* ---------------------------------------------------------------- main results */

  /**
   Firmware fidelity. Whatever the controller does, in every run to Ready the download commands carried
   the patch file exactly, then what had been sent of an image given up, then the image finally armed,
   with one byte changed: the baud byte found inside it becomes the index the chip reads as the operating
   rate. Of each image the first segment may be missing,
   once for an acknowledgement taken while no command was unanswered. The image is the first candidate
   with the board's name, or the chip's generic one if there is none or the board's was given up.
   */
  lemma FirmwareFidelity(patch: seq<byte>, candidates: seq<Candidate>, rate: nat, steps: seq<Step>)
    requires Init(patch, candidates, rate).Some?
    requires Runs(Begin(Init(patch, candidates, rate).value), steps)
    ensures var w := Run(Begin(Init(patch, candidates, rate).value), steps);
            var nvm := w.fsm.nvm;
            w.fsm.state == Ready ==>
              && nvm.pick < |candidates| && nvm.image == candidates[nvm.pick].image
              && BaudOffset(nvm.image) == Some(nvm.offset) && nvm.offset < |nvm.image|
              && RateOf(w.fsm.config.baudIndex) == Some(rate)
              && Carried(w.wire)
                 == patch + Abandoned(w)
                    + Stretch(nvm.image[nvm.offset := w.fsm.config.baudIndex], w.past.skip,
                              SegmentCount(|nvm.image|))
              && w.past.skip <= 1 && w.past.lost <= 1
              && w.fsm.config.candidates == candidates && Chosen(w.fsm, w.past.dropped)
              && (!w.fsm.fallbackUsed ==> Abandoned(w) == [])
              && (w.fsm.fallbackUsed ==> GoodNvm(w.fsm.config, w.past.dropped))
  {
    var f := Init(patch, candidates, rate).value;
    BeginFaithful(patch, candidates, rate);
    RunKeeps(Begin(f), steps);
    RunChooses(Begin(f), steps);
    PatchWhole(patch);
    InitAccepts(patch, candidates, rate);
  }

  predicate ExactlyCounted(w: World, patch: seq<byte>) {
    && w.fsm.tally.sent == |w.wire|
    && (w.fsm.state == Ready ==>
          w.fsm.tally.sent
          == SegmentCount(|patch|) + (w.past.extra - w.past.lost)
             + (SegmentCount(|w.fsm.nvm.image|) - w.past.skip) + 7)
    && (!w.fsm.fallbackUsed && w.fsm.state != Failed ==> w.past.extra == 0)
    && (w.fsm.state == PatchDownload ==> w.fsm.patchIndex < SegmentCount(|patch|))
    && (w.fsm.state == NvmDownload ==> w.fsm.nvmIndex < SegmentCount(|w.fsm.nvm.image|))
  }

  lemma FaithfulIsCounted(w: World)
    requires Faithful(w)
    ensures ExactlyCounted(w, w.fsm.config.patch)
  {
  }

  /** Such a run has sent every segment once and seven other commands, besides those of an image given up. */
  lemma ExactCommandCount(patch: seq<byte>, candidates: seq<Candidate>, rate: nat, steps: seq<Step>)
    requires Init(patch, candidates, rate).Some?
    requires Runs(Begin(Init(patch, candidates, rate).value), steps)
    ensures ExactlyCounted(Run(Begin(Init(patch, candidates, rate).value), steps), patch)
  {
    BeginFaithful(patch, candidates, rate);
    RunKeeps(Begin(Init(patch, candidates, rate).value), steps);
    FaithfulIsCounted(Run(Begin(Init(patch, candidates, rate).value), steps));
  }

  lemma {:induction false} OwedNeverSkips(w: World, steps: seq<Step>)
    requires Runs(w, steps) && OnlyOwed(w, steps) && w.past.skip == 0 && w.past.lost == 0
    ensures Run(w, steps).past.skip == 0 && Run(w, steps).past.lost == 0
    decreases |steps|
  {
    if steps != [] {
      OwedNeverSkips(Apply(w, steps[0]), steps[1..]);
    }
  }

  lemma WholeOnlyUnskipped(front: seq<byte>, nvm: Armed, baudIndex: byte, skip: nat)
    requires BaudOffset(nvm.image) == Some(nvm.offset) && skip <= 1
    ensures var all := Patched(nvm, baudIndex);
            front + Stretch(all, skip, SegmentCount(|nvm.image|)) == front + all <==> skip == 0
  {
    NvmWhole(nvm, baudIndex);
    var all := Patched(nvm, baudIndex);
    if skip == 1 {
      assert |front + Stretch(all, 1, SegmentCount(|nvm.image|))| < |front + all|;
    }
  }

  /**
   Exactly when the download is complete. A run to Ready carried the armed image whole if and only if no
   acknowledgement was taken, since it was armed, while no command was unanswered. In particular it did
   if packets were only ever taken while they were owed; rejected ones do no harm.
   */
  lemma PacketsMustBeOwed(patch: seq<byte>, candidates: seq<Candidate>, rate: nat, steps: seq<Step>)
    requires Init(patch, candidates, rate).Some?
    requires Runs(Begin(Init(patch, candidates, rate).value), steps)
    requires Run(Begin(Init(patch, candidates, rate).value), steps).fsm.state == Ready
    ensures var w := Run(Begin(Init(patch, candidates, rate).value), steps);
            var nvm := w.fsm.nvm;
            && nvm.offset < |nvm.image|
            && RateOf(w.fsm.config.baudIndex) == Some(rate)
            && (Carried(w.wire) == patch + Abandoned(w) + nvm.image[nvm.offset := w.fsm.config.baudIndex]
                <==> w.past.skip == 0)
            && (OnlyOwed(Begin(Init(patch, candidates, rate).value), steps)
                ==> w.past.skip == 0 && w.past.lost == 0)
  {
    var start := Begin(Init(patch, candidates, rate).value);
    var w := Run(start, steps);
    FirmwareFidelity(patch, candidates, rate, steps);
    WholeOnlyUnskipped(patch + Abandoned(w), w.fsm.nvm, w.fsm.config.baudIndex, w.past.skip);
    if OnlyOwed(start, steps) {
      OwedNeverSkips(start, steps);
    }
  }

  /** The shortest acknowledgement of a segment. */
  const VENDOR_ACK: seq<byte> := [4, 0xFF, 3, 0, 4, 0]

  lemma AckIsTaken()
    ensures Takes(NvmDownload, VENDOR_ACK)
  {
    assert VENDOR_ACK[5..] == [0];
    assert IsSegmentAck(VENDOR_ACK);
  }

  /** The driver leaves its flag up across a timeout, so a late acknowledgement does skip a segment. */
  lemma LateAckSkipsSegment(w: World)
    requires Faithful(w) && w.owed && Enabled(w, NvmTimesOut) && OnNvmFailure(w.fsm).state == NvmDownload
    ensures var x := Apply(w, NvmTimesOut);
            && Enabled(x, Packet(VENDOR_ACK)) && !x.owed && OnPacket(x.fsm, VENDOR_ACK).accepted
            && Apply(x, Packet(VENDOR_ACK)).fsm.nvmIndex == 1
            && Apply(x, Packet(VENDOR_ACK)).wire == w.wire
            && Apply(x, Packet(VENDOR_ACK)).past.skip == 1
  {
    StepKeeps(w, NvmTimesOut);
    NvmFailureEffect(w.fsm);
    AckIsTaken();
  }

  /* ---------------------------------------------------------------- termination */

  function Stage(s: State): nat {
    match s
    case Start => 10
    case VersionRequest => 9
    case SetBaudRate => 8
    case PatchDownload => 7
    case BoardIdRequest => 6
    case NvmDownload => 5
    case DisableLogging => 4
    case BuildInfo => 3
    case HciReset => 2
    case ReadLocalVersion => 1
    case Ready => 0
    case Failed => 0
  }

  function Remaining(f: Fsm): nat {
    if f.state == PatchDownload && f.patchIndex < PatchSegments(f) then PatchSegments(f) - f.patchIndex
    else if f.state == NvmDownload && f.nvmIndex < NvmSegments(f) then NvmSegments(f) - f.nvmIndex
    else 0
  }

  function Pending(w: World): nat {
    if w.owed then 0 else if w.asked == Start then 1 else 2
  }

  /** The fallback still unused, the stage, the segments left, the command still to be sent. */
  predicate Descends(w: World, x: World) {
    var a, b := if w.fsm.fallbackUsed then 0 else 1, if x.fsm.fallbackUsed then 0 else 1;
    || b < a
    || (b == a && Stage(x.fsm.state) < Stage(w.fsm.state))
    || (b == a && x.fsm.state == w.fsm.state && Remaining(x.fsm) < Remaining(w.fsm))
    || (b == a && x.fsm.state == w.fsm.state && Remaining(x.fsm) == Remaining(w.fsm) && Pending(x) < Pending(w))
  }

  lemma PumpDescends(w: World)
    requires Placed(w) && Timely(w) && Enabled(w, Pump)
    ensures Descends(w, Pumped(w))
  {
    if w.fsm.state == PatchDownload {
      PumpPatchEffect(w);
    } else if w.fsm.state == NvmDownload {
      PumpNvmEffect(w);
    } else {
      PumpPlainEffect(w);
    }
  }

  lemma AnsweredDescends(w: World, x: World)
    requires Placed(w) && Answered(w.fsm, x.fsm)
    ensures Descends(w, x)
  {
  }

  lemma TimeoutDescends(w: World, x: World)
    requires Placed(w) && Timely(w) && w.fsm.state != Failed && x.asked == Start && !x.owed
    requires
      || (w.asked == BoardIdRequest && w.fsm.state == BoardIdRequest && Rearmed(w.fsm, x.fsm)
          && x.fsm.fallbackUsed == w.fsm.fallbackUsed)
      || (w.asked == BoardIdRequest && w.fsm.state == NvmDownload && x.fsm == w.fsm)
      || (w.asked == NvmDownload && !w.fsm.fallbackUsed && Rearmed(w.fsm, x.fsm)
          && (x.fsm.state != Failed ==> x.fsm.fallbackUsed))
    ensures Descends(w, x)
  {
  }

  /** Every command, accepted answer and timeout brings the end nearer; only rejected packets do not count. */
  lemma StepDescends(w: World, a: Step)
    requires Faithful(w) && Enabled(w, a)
    requires a.Packet? ==> OnPacket(w.fsm, a.p).accepted
    ensures Descends(w, Apply(w, a))
  {
    match a
    case Pump => PumpDescends(w);
    case Packet(p) =>
      PacketEffect(w.fsm, p);
      AnsweredDescends(w, Apply(w, a));
    case BoardIdTimesOut =>
      BoardTimeoutEffect(w.fsm);
      TimeoutDescends(w, Apply(w, a));
    case NvmTimesOut =>
      NvmFailureEffect(w.fsm);
      TimeoutDescends(w, Apply(w, a));
  }

  lemma ChosenWithin(w: World, most: nat)
    requires Placed(w) && (w.fsm.state == NvmDownload || AfterNvm(w.fsm.state))
    requires forall c <- w.fsm.config.candidates :: SegmentCount(|c.image|) <= most
    ensures NvmSegments(w.fsm) <= most
  {
    assert w.fsm.config.candidates[w.fsm.nvm.pick] in w.fsm.config.candidates;
  }

  /** There is room for one command more whenever the machine can be pumped. */
  lemma PumpHasRoom(w: World, most: nat)
    requires Placed(w) && Counts(w) && Enabled(w, Pump) && w.past.extra <= most
    requires w.fsm.state == NvmDownload || AfterNvm(w.fsm.state) ==> NvmSegments(w.fsm) <= most
    ensures |w.wire| + 1 <= PatchSegments(w.fsm) + 2 * most + 7
  {
  }

  lemma WireGrowsByOne(w: World, a: Step)
    requires Enabled(w, a)
    ensures |Apply(w, a).wire| <= |w.wire| + if a == Pump then 1 else 0
    ensures a != NvmTimesOut ==> Apply(w, a).past.extra == w.past.extra
  {
  }

  lemma StepCommands(w: World, a: Step, most: nat)
    requires Faithful(w) && Enabled(w, a) && w.past.extra <= most
    requires forall c <- w.fsm.config.candidates :: SegmentCount(|c.image|) <= most
    requires |w.wire| <= PatchSegments(w.fsm) + 2 * most + 7
    ensures |Apply(w, a).wire| <= PatchSegments(w.fsm) + 2 * most + 7 && Apply(w, a).past.extra <= most
  {
    WireGrowsByOne(w, a);
    if w.fsm.state == NvmDownload || AfterNvm(w.fsm.state) {
      ChosenWithin(w, most);
    }
    if a == Pump {
      PumpHasRoom(w, most);
    }
  }

  /** No run, whatever the controller does, sends more commands than this. */
  lemma {:induction false} CommandsBounded(w: World, steps: seq<Step>, most: nat)
    requires Faithful(w) && Runs(w, steps) && w.past.extra <= most
    requires forall c <- w.fsm.config.candidates :: SegmentCount(|c.image|) <= most
    requires |w.wire| <= PatchSegments(w.fsm) + 2 * most + 7
    ensures Run(w, steps).fsm.tally.sent <= PatchSegments(w.fsm) + 2 * most + 7
    decreases |steps|
  {
    if steps != [] {
      StepKeeps(w, steps[0]);
      ConfigStays(w, steps[0]);
      StepCommands(w, steps[0], most);
      CommandsBounded(Apply(w, steps[0]), steps[1..], most);
    }
  }

  /* ---------------------------------------------------------------- commands and their answers */

  predicate Writes(a: Action) {
    a.Send? || a.SendNoWait? || a.SendBaudAndSwitch?
  }

  /** Every command of the bring-up is one legal H4 command packet that fits the driver's buffer. */
  lemma CommandsAreLegalH4(f: Fsm)
    requires Writes(Next(f).action)
    ensures var c := Next(f).action.command;
            && 4 <= |c| <= MAX_COMMAND
            && c[0] == 1 && H4Spec.Legal(1, c[1..])
  {
    var c := Next(f).action.command;
    assert c[0] == 1 && |c| == 4 + c[3] as nat && |c| <= MAX_COMMAND;
  }

  /** The opcode, and for an EDL request the sub-command, that asks for an answer of this kind. */
  function OpcodeFor(w: Wait): u16 {
    match w
    case ForLogging => 0xFC17
    case ForReset => 0x0C03
    case ForLocalVersion => 0x1001
    case _ => EDL_OPCODE
  }

  function SubFor(w: Wait): byte {
    match w
    case ForVersion => VERSION
    case ForBoardId => BOARD_ID
    case ForBuildInfo => BUILD_INFO
    case _ => SEGMENT_REQUEST
  }

  lemma SentSegment(f: Fsm)
    requires Next(f).action.Send? && (f.state == PatchDownload || f.state == NvmDownload)
    ensures var c := Next(f).action.command;
            Next(f).next.state == f.state && |c| >= 6 && c[1] == 0x00 && c[2] == 0xFC && c[4] == SEGMENT_REQUEST
  {
  }

  lemma SentRequest(f: Fsm)
    requires Next(f).action.Send?
    ensures Awaits(Next(f).next.state).Some?
    ensures var c, w := Next(f).action.command, Awaits(Next(f).next.state).value;
            && |c| >= 4 && Rd16(c, 1) == OpcodeFor(w)
            && (OpcodeFor(w) == EDL_OPCODE ==> |c| >= 5 && c[4] == SubFor(w))
  {
    if f.state == PatchDownload || f.state == NvmDownload {
      SentSegment(f);
    }
  }

  lemma AnswerNames(p: seq<byte>, w: Wait)
    requires Answers(p, w)
    ensures |p| >= 5
    ensures p[1] == COMMAND_COMPLETE ==> |p| >= 6 && Rd16(p, 4) == OpcodeFor(w)
    ensures p[1] == VENDOR_EVENT ==>
              OpcodeFor(w) == EDL_OPCODE && p[3] == 0
              && (p[4] == SubFor(w) || (w == ForSegment && p[4] == SEGMENT_DONE))
    ensures p[1] == COMMAND_COMPLETE || p[1] == VENDOR_EVENT
  {
    AnswersLookRight(p, w);
  }

  /**
   An answer belongs to the command just sent: a Command Complete names its opcode, a vendor event
   names its sub-command or, for a segment, the download's own response type.
   */
  lemma AnswerMatchesRequest(f: Fsm, p: seq<byte>)
    requires Next(f).action.Send? && Takes(Next(f).next.state, p)
    ensures var c := Next(f).action.command;
            && |c| >= 4 && |p| >= 5
            && (p[1] == COMMAND_COMPLETE ==> |p| >= 6 && Rd16(p, 4) == Rd16(c, 1))
            && (p[1] == VENDOR_EVENT ==>
                  |c| >= 5 && Rd16(c, 1) == EDL_OPCODE && p[3] == 0
                  && (p[4] == c[4] || (c[4] == SEGMENT_REQUEST && p[4] == SEGMENT_DONE)))
            && (p[1] == COMMAND_COMPLETE || p[1] == VENDOR_EVENT)
  {
    SentRequest(f);
    AnswerNames(p, Awaits(Next(f).next.state).value);
  }
}
