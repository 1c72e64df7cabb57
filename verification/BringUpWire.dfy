/**
 The whole wire of the bring-up, command by command: in every run to Ready the controller was sent exactly
 this list, whatever it answered (src/driver/qca_uart.c, src/common/qca_init_fsm.c).
 */
module BringUpWire {
  import opened Bytes
  import opened Tlv
  import opened InitFsmSpec
  import opened BringUp

  /** The download commands of segments from up to but not including to. */
  function Downloads(d: seq<byte>, from: nat, end: nat): seq<seq<byte>>
    decreases end
  {
    if from >= end then []
    else
      var s := d[Min(243 * (end - 1), |d|)..Min(243 * end, |d|)];
      Downloads(d, from, end - 1) + [[1, 0x00, 0xFC, |s| + 2, 0x1E, |s|] + s]
  }

  const BOARD_QUESTION: seq<byte> := [1, 0x00, 0xFC, 1, 0x23]

  /** Logging off, build information, HCI reset, local version. */
  const CLOSING: seq<seq<byte>> := [
    [1, 0x17, 0xFC, 2, 0x14, 0x00], [1, 0x00, 0xFC, 1, 0x20], [1, 0x03, 0x0C, 0], [1, 0x01, 0x10, 0]]

  /** The version question and the baud-rate command. */
  function Opening(baudIndex: byte): seq<seq<byte>> {
    [[1, 0x00, 0xFC, 1, 0x19], [1, 0x48, 0xFC, 1, baudIndex]]
  }

  /** Everything up to segment n of the patch. */
  function PatchPart(c: Config, n: nat): seq<seq<byte>> {
    Opening(c.baudIndex) + Downloads(c.patch, 0, n)
  }

  /** Everything before the armed image. */
  function BeforeImage(c: Config, past: Past): seq<seq<byte>> {
    PatchPart(c, SegmentCount(|c.patch|)) + [BOARD_QUESTION]
    + Downloads(Patched(past.dropped, c.baudIndex), past.lost, past.extra)
  }

  /** Everything up to segment n of the armed image. */
  function ImagePart(c: Config, past: Past, nvm: Armed, n: nat): seq<seq<byte>> {
    BeforeImage(c, past) + Downloads(Patched(nvm, c.baudIndex), past.skip, n)
  }

  /** The number of closing questions answered. */
  function Closed(s: State): (n: nat)
    ensures n <= 4
  {
    match s
    case BuildInfo => 1
    case HciReset => 2
    case ReadLocalVersion => 3
    case Ready => 4
    case _ => 0
  }

  /** The commands that belong on the wire by now, n of them not yet answered. */
  function WireOf(f: Fsm, past: Past, n: nat): seq<seq<byte>> {
    match f.state
    case Start => []
    case VersionRequest => Opening(f.config.baudIndex)[..1]
    case SetBaudRate => Opening(f.config.baudIndex)[..1]
    case PatchDownload => PatchPart(f.config, f.patchIndex + n)
    case BoardIdRequest => PatchPart(f.config, PatchSegments(f)) + if n == 0 then [] else [BOARD_QUESTION]
    case NvmDownload => ImagePart(f.config, past, f.nvm, f.nvmIndex + n)
    case Failed => []
    case _ => ImagePart(f.config, past, f.nvm, NvmSegments(f)) + CLOSING[..Min(Closed(f.state) + n, 4)]
  }

  predicate Written(w: World) {
    w.fsm.state != Failed ==> w.wire == WireOf(w.fsm, w.past, Unanswered(w))
  }

  lemma AtTheEnd(a: seq<seq<byte>>, b: seq<seq<byte>>, c: seq<byte>)
    ensures a + (b + [c]) == (a + b) + [c]
  {
  }

  lemma NothingMore(a: seq<seq<byte>>)
    ensures a + [] == a
  {
  }

  lemma OneMore(q: seq<seq<byte>>, k: nat)
    requires k < |q|
    ensures q[..k + 1] == q[..k] + [q[k]]
  {
  }

  /* ---------------------------------------------------------------- commands written */

  lemma DownloadsGrow(front: seq<seq<byte>>, d: seq<byte>, from: nat, i: nat)
    requires from <= i
    ensures front + Downloads(d, from, i + 1) == front + Downloads(d, from, i) + [SegmentCommand(Segment(d, i))]
  {
    AtTheEnd(front, Downloads(d, from, i), SegmentCommand(Segment(d, i)));
  }

  lemma PatchPumpedWrites(w: World, x: World)
    requires Written(w) && w.fsm.state == PatchDownload && !w.owed && PatchPumped(w, x)
    ensures Written(x)
  {
    DownloadsGrow(Opening(w.fsm.config.baudIndex), w.fsm.config.patch, 0, w.fsm.patchIndex);
  }

  /** The command of a segment, its baud byte replaced, is the command of the patched image's segment. */
  lemma NvmCommandIsDownload(nvm: Armed, i: nat, baudIndex: byte)
    requires BaudOffset(nvm.image) == Some(nvm.offset)
    ensures NvmCommand(nvm, i, baudIndex) == SegmentCommand(Segment(Patched(nvm, baudIndex), i))
  {
    PatchedSegment(nvm, i, baudIndex);
  }

  lemma ImageGrows(c: Config, past: Past, nvm: Armed, i: nat)
    requires BaudOffset(nvm.image) == Some(nvm.offset) && past.skip <= i
    ensures ImagePart(c, past, nvm, i + 1) == ImagePart(c, past, nvm, i) + [NvmCommand(nvm, i, c.baudIndex)]
  {
    DownloadsGrow(BeforeImage(c, past), Patched(nvm, c.baudIndex), past.skip, i);
    NvmCommandIsDownload(nvm, i, c.baudIndex);
  }

  lemma NvmPumpedWrites(w: World, x: World)
    requires Written(w) && w.fsm.state == NvmDownload && !w.owed && NvmPumped(w, x)
    requires GoodNvm(w.fsm.config, w.fsm.nvm) && w.past.skip <= w.fsm.nvmIndex
    ensures Written(x)
  {
    ImageGrows(w.fsm.config, w.past, w.fsm.nvm, w.fsm.nvmIndex);
  }

  lemma OpeningWritten(w: World, x: World, c: seq<byte>)
    requires Written(w) && !w.owed && PlainlyPumped(w, x, c)
    requires var a := Next(w.fsm).action; (a.Send? || a.SendBaudAndSwitch?) && c == a.command
    requires w.fsm.state == Start || (w.fsm.state == SetBaudRate && w.fsm.patchIndex == 0)
    ensures Written(x)
  {
    var o := Opening(w.fsm.config.baudIndex);
    assert o[..1] == [o[0]] && [] + [o[0]] == [o[0]] && o[..1] + [o[1]] == o;
    NothingMore(o);
  }

  /** The wire grows by the next of the closing questions. */
  lemma ClosingGrows(front: seq<seq<byte>>, closing: seq<seq<byte>>, k: nat)
    requires k < |closing|
    ensures front + closing[..k] + [closing[k]] == front + closing[..k + 1]
  {
    OneMore(closing, k);
    AtTheEnd(front, closing[..k], closing[k]);
  }

  lemma ClosingWritten(w: World, x: World, c: seq<byte>)
    requires Written(w) && !w.owed && PlainlyPumped(w, x, c) && c == CLOSING[Min(Closed(w.fsm.state), 3)]
    requires AfterNvm(w.fsm.state) && w.fsm.state != Ready
    ensures Written(x)
  {
    var k := Closed(w.fsm.state);
    ClosingGrows(ImagePart(w.fsm.config, w.past, w.fsm.nvm, NvmSegments(w.fsm)), CLOSING, k);
    assert x.wire == w.wire + [CLOSING[k]];
  }

  lemma ClosingCommand(f: Fsm)
    requires AfterNvm(f.state) && f.state != Ready
    ensures Next(f).action == Send(CLOSING[Min(Closed(f.state), 3)])
  {
  }

  lemma PlainPumpedWrites(w: World, x: World, c: seq<byte>)
    requires Written(w) && !w.owed && PlainlyPumped(w, x, c)
    requires var a := Next(w.fsm).action; (a.Send? || a.SendBaudAndSwitch?) && c == a.command
    requires w.fsm.state == SetBaudRate ==> w.fsm.patchIndex == 0
    requires w.fsm.state != PatchDownload && w.fsm.state != NvmDownload && w.fsm.state != Failed
    ensures Written(x)
  {
    if w.fsm.state == Start || w.fsm.state == SetBaudRate {
      OpeningWritten(w, x, c);
    } else if w.fsm.state == BoardIdRequest {
      NothingMore(PatchPart(w.fsm.config, PatchSegments(w.fsm)));
    } else {
      ClosingCommand(w.fsm);
      ClosingWritten(w, x, c);
    }
  }

  lemma PumpWrites(w: World)
    requires Faithful(w) && Written(w) && Enabled(w, Pump)
    ensures Written(Pumped(w))
  {
    if w.fsm.state == PatchDownload {
      PumpPatchEffect(w);
      PatchPumpedWrites(w, Pumped(w));
    } else if w.fsm.state == NvmDownload {
      PumpNvmEffect(w);
      NvmPumpedWrites(w, Pumped(w));
    } else {
      PumpPlainEffect(w);
      PlainPumpedWrites(w, Pumped(w), Next(w.fsm).action.command);
    }
  }

  /* ---------------------------------------------------------------- answers and timeouts write nothing */

  lemma ImageBegins(c: Config, past: Past, nvm: Armed, n: nat)
    requires n <= past.skip
    ensures ImagePart(c, past, nvm, n) == BeforeImage(c, past)
    ensures past.extra <= past.lost ==>
              BeforeImage(c, past) == PatchPart(c, SegmentCount(|c.patch|)) + [BOARD_QUESTION]
  {
    NothingMore(BeforeImage(c, past));
    NothingMore(PatchPart(c, SegmentCount(|c.patch|)) + [BOARD_QUESTION]);
  }

  lemma ClosingBegins(c: Config, past: Past, nvm: Armed, n: nat)
    ensures ImagePart(c, past, nvm, n) + CLOSING[..0] == ImagePart(c, past, nvm, n)
  {
    NothingMore(ImagePart(c, past, nvm, n));
  }

  lemma PatchAnsweredWrites(w: World, x: World)
    requires w.owed && Written(w) && w.fsm.state == PatchDownload && w.fsm.patchIndex < PatchSegments(w.fsm)
    requires Answered(w.fsm, x.fsm) && x == w.(fsm := x.fsm, flag := false, owed := false)
    ensures Written(x)
  {
    NothingMore(PatchPart(w.fsm.config, PatchSegments(w.fsm)));
  }

  lemma BoardAnsweredWrites(w: World, x: World)
    requires w.owed && Written(w) && w.fsm.state == BoardIdRequest && w.past.extra <= w.past.lost
    requires Answered(w.fsm, x.fsm) && x == w.(fsm := x.fsm, flag := false, owed := false)
    ensures Written(x)
  {
    ImageBegins(w.fsm.config, x.past, x.fsm.nvm, 0);
  }

  lemma NvmAnsweredWrites(w: World, x: World)
    requires w.owed && Written(w) && w.fsm.state == NvmDownload && w.fsm.nvmIndex < NvmSegments(w.fsm)
    requires Answered(w.fsm, x.fsm) && x == w.(fsm := x.fsm, flag := false, owed := false)
    ensures Written(x)
  {
    ClosingBegins(w.fsm.config, w.past, w.fsm.nvm, NvmSegments(w.fsm));
  }

  lemma PlainAnsweredWrites(w: World, x: World)
    requires w.owed && Written(w) && (w.fsm.state == VersionRequest || (AfterNvm(w.fsm.state) && w.fsm.state != Ready))
    requires Answered(w.fsm, x.fsm) && x == w.(fsm := x.fsm, flag := false, owed := false)
    ensures Written(x)
  {
  }

  /** The answer to a command finds it on the wire. */
  lemma AnsweredWrites(w: World, x: World)
    requires Placed(w) && Timely(w) && w.owed && Written(w)
    requires Answered(w.fsm, x.fsm) && x == w.(fsm := x.fsm, flag := false, owed := false)
    ensures Written(x)
  {
    match w.fsm.state
    case PatchDownload => PatchAnsweredWrites(w, x);
    case BoardIdRequest => BoardAnsweredWrites(w, x);
    case NvmDownload => NvmAnsweredWrites(w, x);
    case _ => PlainAnsweredWrites(w, x);
  }

  lemma IgnoredWrites(w: World, x: World)
    requires Written(w) && Ignored(w.fsm, x.fsm) && x == w.(fsm := x.fsm)
    ensures Written(x)
  {
  }

  /** An acknowledgement nobody asked for counts segment 0 and writes nothing. */
  lemma LateAnswerWrites(w: World, x: World)
    requires Faithful(w) && Written(w) && w.flag && !w.owed && Answered(w.fsm, x.fsm)
    requires x == w.(fsm := x.fsm, flag := false, past := w.past.(skip := w.past.skip + 1))
    ensures Written(x)
  {
    var c := w.fsm.config;
    ImageBegins(c, w.past, w.fsm.nvm, 0);
    ImageBegins(c, x.past, w.fsm.nvm, 1);
    ClosingBegins(c, x.past, w.fsm.nvm, 1);
  }

  lemma PacketWrites(w: World, p: seq<byte>)
    requires Faithful(w) && Written(w) && Enabled(w, Packet(p))
    ensures Written(Apply(w, Packet(p)))
  {
    PacketEffect(w.fsm, p);
    var x := Apply(w, Packet(p));
    if !OnPacket(w.fsm, p).accepted {
      IgnoredWrites(w, x);
    } else if w.owed {
      AnsweredWrites(w, x);
    } else {
      LateAnswerWrites(w, x);
    }
  }

  lemma BoardIdTimesOutWrites(w: World)
    requires Faithful(w) && Written(w) && Enabled(w, BoardIdTimesOut)
    ensures Written(Apply(w, BoardIdTimesOut))
  {
    BoardTimeoutEffect(w.fsm);
    var x := Apply(w, BoardIdTimesOut);
    if w.fsm.state == BoardIdRequest {
      ImageBegins(w.fsm.config, x.past, x.fsm.nvm, 0);
    }
  }

  /** What had been sent of the image given up is what is remembered of it. */
  lemma GivenUpWrites(w: World, x: World)
    requires Written(w) && FirstDownload(w) && GivesUp(w, x) && x.fsm.state != Failed
    ensures Written(x)
  {
    var c, n := w.fsm.config, w.fsm.nvmIndex + Unanswered(w);
    ClosingBegins(c, w.past, w.fsm.nvm, NvmSegments(w.fsm));
    ImageBegins(c, x.past, x.fsm.nvm, 0);
    ImageBegins(c, w.past, w.fsm.nvm, 0);
  }

  lemma NvmTimesOutWrites(w: World)
    requires Faithful(w) && Written(w) && Enabled(w, NvmTimesOut)
    ensures Written(Apply(w, NvmTimesOut))
  {
    NvmFailureEffect(w.fsm);
    var x := Apply(w, NvmTimesOut);
    if x.fsm.state != Failed {
      GivenUpWrites(w, x);
    }
  }

  lemma StepWrites(w: World, a: Step)
    requires Faithful(w) && Written(w) && Enabled(w, a)
    ensures Written(Apply(w, a))
  {
    match a
    case Pump => PumpWrites(w);
    case Packet(p) => PacketWrites(w, p);
    case BoardIdTimesOut => BoardIdTimesOutWrites(w);
    case NvmTimesOut => NvmTimesOutWrites(w);
  }

  lemma {:induction false} RunWrites(w: World, steps: seq<Step>)
    requires Faithful(w) && Written(w) && Runs(w, steps)
    ensures Written(Run(w, steps))
    decreases |steps|
  {
    if steps != [] {
      StepKeeps(w, steps[0]);
      StepWrites(w, steps[0]);
      RunWrites(Apply(w, steps[0]), steps[1..]);
    }
  }

  lemma ReadyWire(w: World)
    requires Written(w) && w.fsm.state == Ready
    ensures w.wire == ImagePart(w.fsm.config, w.past, w.fsm.nvm, NvmSegments(w.fsm)) + CLOSING
  {
    assert CLOSING[..4] == CLOSING;
  }

  /**
   The exact wire. In every run to Ready the commands written were, byte for byte and in this order: the
   version question; the baud-rate command with the index the chip reads as the operating rate; the
   download of every segment of the patch; the board question; what had been sent of an image given up;
   the download of the armed image with that index in its baud byte, its first segment missing only if an
   acknowledgement was taken while no command was unanswered; and the four closing commands. Until then
   the wire is always the part of this list that belongs to the state.
   */
  lemma ExactWire(patch: seq<byte>, candidates: seq<Candidate>, rate: nat, steps: seq<Step>)
    requires Init(patch, candidates, rate).Some?
    requires Runs(Begin(Init(patch, candidates, rate).value), steps)
    ensures var w := Run(Begin(Init(patch, candidates, rate).value), steps);
            var i := w.fsm.config.baudIndex;
            && RateOf(i) == Some(rate)
            && Written(w)
            && (w.fsm.state == Ready && !w.fsm.fallbackUsed ==> w.past.extra == 0)
            && (w.fsm.state == Ready ==>
                  w.wire
                  == [[1, 0x00, 0xFC, 1, 0x19], [1, 0x48, 0xFC, 1, i]]
                     + Downloads(patch, 0, SegmentCount(|patch|))
                     + [[1, 0x00, 0xFC, 1, 0x23]]
                     + Downloads(Patched(w.past.dropped, i), w.past.lost, w.past.extra)
                     + Downloads(Patched(w.fsm.nvm, i), w.past.skip, SegmentCount(|w.fsm.nvm.image|))
                     + [[1, 0x17, 0xFC, 2, 0x14, 0x00], [1, 0x00, 0xFC, 1, 0x20], [1, 0x03, 0x0C, 0],
                        [1, 0x01, 0x10, 0]])
  {
    var start := Begin(Init(patch, candidates, rate).value);
    InitAccepts(patch, candidates, rate);
    BeginFaithful(patch, candidates, rate);
    RunKeeps(start, steps);
    RunWrites(start, steps);
    if Run(start, steps).fsm.state == Ready {
      ReadyWire(Run(start, steps));
    }
  }
}
