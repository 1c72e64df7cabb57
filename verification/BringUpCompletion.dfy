/**
 The bring-up ends in Ready whenever the controller answers (src/driver/qca_uart.c,
 src/common/qca_init_fsm.c).
 */
module BringUpCompletion {
  import opened Bytes
  import opened Tlv
  import opened Replies
  import opened NvmNames
  import opened InitFsmSpec
  import opened BringUp

  /** A controller that answers every request: with this version and this board ID. */
  datatype Controller = Controller(version: seq<byte>, board: seq<byte>)

  function Soc(c: Controller): SocVersion
    requires ParseVersion(c.version).Some?
  {
    ParseVersion(c.version).value
  }

  /** Its answers are well formed, and a generic image for its chip is among the candidates. */
  predicate Cooperative(c: Controller, config: Config) {
    && ParseVersion(c.version).Some? && ParseBoardId(c.board).Some?
    && Find(config.candidates, NvmName(Soc(c).socId, Soc(c).romVersion, 0)) < |config.candidates|
  }

  function Reply(c: Controller, s: State): seq<byte> {
    match s
    case VersionRequest => c.version
    case BoardIdRequest => c.board
    case DisableLogging => [4, 0x0E, 4, 1, 0x17, 0xFC, 0]
    case BuildInfo => [4, 0xFF, 3, 0, 0x20, 0]
    case HciReset => [4, 0x0E, 4, 1, 0x03, 0x0C, 0]
    case ReadLocalVersion => [4, 0x0E, 12, 1, 0x01, 0x10, 0, 0, 0, 0, 0, 0, 0, 0, 0]
    case _ => VENDOR_ACK
  }

  /** The fixed replies are the shortest answers of their kind. */
  lemma EdlRepliesAreTaken(c: Controller)
    ensures Answers(VENDOR_ACK, ForSegment) && Answers(Reply(c, BuildInfo), ForBuildInfo)
  {
    assert VENDOR_ACK[5..] == [0];
    assert Reply(c, BuildInfo)[5..] == [0];
  }

  lemma HciRepliesAreTaken(c: Controller)
    ensures Answers(Reply(c, DisableLogging), ForLogging)
    ensures Answers(Reply(c, HciReset), ForReset)
    ensures Answers(Reply(c, ReadLocalVersion), ForLocalVersion)
  {
  }

  lemma ReplyIsTaken(c: Controller, config: Config, s: State)
    requires Cooperative(c, config) && Waiting(s)
    ensures Takes(s, Reply(c, s))
  {
    EdlRepliesAreTaken(c);
    HciRepliesAreTaken(c);
  }

  lemma SelectSucceeds(f: Fsm, c: Controller)
    requires Cooperative(c, f.config) && GoodConfig(f.config) && f.id.soc == Soc(c)
    ensures StartNvm(f).state == NvmDownload
  {
    var soc, rom := f.id.soc.socId, f.id.soc.romVersion;
    FallbackIsGeneric(soc, rom, f.id.boardId);
    var target, generic := NvmName(soc, rom, f.id.boardId), NvmName(soc, rom, 0);
    var name := if Find(f.config.candidates, target) < |f.config.candidates| then target else generic;
    var i := Find(f.config.candidates, name);
    assert f.config.candidates[i] in f.config.candidates;
  }

  predicate BeforeSelection(s: State) {
    s == SetBaudRate || s == PatchDownload || s == BoardIdRequest
  }

  predicate Knows(w: World, c: Controller) {
    && Cooperative(c, w.fsm.config) && w.fsm.state != Failed
    && (BeforeSelection(w.fsm.state) ==> w.fsm.id.soc == Soc(c))
  }

  lemma PumpEffect(w: World)
    requires Placed(w) && Timely(w) && Enabled(w, Pump)
    ensures Pumped(w).fsm.id == w.fsm.id && Pumped(w).fsm.config == w.fsm.config && Pumped(w).fsm.state != Failed
    ensures Pumped(w).fsm.state == w.fsm.state
            || (w.fsm.state == Start && Pumped(w).fsm.state == VersionRequest)
            || (w.fsm.state == SetBaudRate && Pumped(w).fsm.state == PatchDownload)
  {
  }

  lemma PumpGoesOn(w: World, c: Controller)
    requires Faithful(w) && Knows(w, c) && Enabled(w, Pump)
    ensures Knows(Pumped(w), c)
  {
    PumpEffect(w);
  }

  lemma AnswerKeepsSoc(f: Fsm, p: seq<byte>)
    requires Takes(f.state, p) && (f.state == PatchDownload || f.state == VersionRequest)
    ensures OnPacket(f, p).next.id.soc
            == if f.state == VersionRequest then ParseVersion(p).value else f.id.soc
  {
  }

  lemma BoardReplyAccepted(f: Fsm, c: Controller)
    requires Cooperative(c, f.config) && GoodConfig(f.config) && f.id.soc == Soc(c) && f.state == BoardIdRequest
    requires Takes(f.state, c.board)
    ensures OnPacket(f, c.board).accepted
  {
    SelectSucceeds(WithBoard(Handled(f), ParseBoardId(c.board).value), c);
  }

  lemma OtherReplyAccepted(f: Fsm, p: seq<byte>)
    requires Takes(f.state, p) && f.state != BoardIdRequest
    ensures OnPacket(f, p).accepted
  {
  }

  lemma ReplyAccepted(w: World, c: Controller)
    requires Faithful(w) && Knows(w, c) && w.owed
    ensures Takes(w.fsm.state, Reply(c, w.fsm.state))
    ensures OnPacket(w.fsm, Reply(c, w.fsm.state)).accepted
  {
    ReplyIsTaken(c, w.fsm.config, w.fsm.state);
    if w.fsm.state == BoardIdRequest {
      BoardReplyAccepted(w.fsm, c);
    } else {
      OtherReplyAccepted(w.fsm, Reply(c, w.fsm.state));
    }
  }

  lemma AnsweredCourse(f: Fsm, g: Fsm)
    requires Answered(f, g)
    ensures g.config == f.config && g.state != Failed
    ensures BeforeSelection(g.state) ==> f.state == VersionRequest || f.state == PatchDownload
  {
  }

  lemma AnsweredKnows(w: World, x: World, c: Controller)
    requires Knows(w, c) && Answered(w.fsm, x.fsm)
    requires w.fsm.state == VersionRequest ==> x.fsm.id.soc == Soc(c)
    requires w.fsm.state == PatchDownload ==> x.fsm.id.soc == w.fsm.id.soc
    ensures Knows(x, c)
  {
    AnsweredCourse(w.fsm, x.fsm);
  }

  lemma ReplyGoesOn(w: World, c: Controller)
    requires Faithful(w) && Knows(w, c) && w.owed
    ensures OnPacket(w.fsm, Reply(c, w.fsm.state)).accepted
    ensures Knows(Apply(w, Packet(Reply(c, w.fsm.state))), c)
  {
    var p := Reply(c, w.fsm.state);
    ReplyAccepted(w, c);
    PacketEffect(w.fsm, p);
    if w.fsm.state == PatchDownload || w.fsm.state == VersionRequest {
      AnswerKeepsSoc(w.fsm, p);
    }
    AnsweredKnows(w, Apply(w, Packet(p)), c);
  }

  function Board(c: Controller): u16
    requires ParseBoardId(c.board).Some?
  {
    ParseBoardId(c.board).value
  }

  /** Once an image has been chosen, the machine knows this controller's chip and board. */
  predicate Identified(f: Fsm, c: Controller)
    requires Cooperative(c, f.config)
  {
    Downloading(f.state) ==> f.id.soc == Soc(c) && f.id.boardId == Board(c)
  }

  lemma BoardReplyIdentifies(f: Fsm, c: Controller)
    requires Cooperative(c, f.config) && f.state == BoardIdRequest && f.id.soc == Soc(c) && GoodConfig(f.config)
    requires Takes(f.state, c.board)
    ensures var g := OnPacket(f, c.board).next; g.config == f.config && Identified(g, c)
  {
    var known := WithBoard(Handled(f), Board(c));
    StartNvmArms(known);
  }

  /** What the driver and such a controller do next. */
  function Onward(w: World, c: Controller): Step {
    if w.owed then Packet(Reply(c, w.fsm.state)) else Pump
  }

  lemma OnwardIdentifies(w: World, c: Controller)
    requires Faithful(w) && Knows(w, c) && w.fsm.state != Ready && Identified(w.fsm, c)
    ensures Enabled(w, Onward(w, c))
    ensures var x := Apply(w, Onward(w, c)); Cooperative(c, x.fsm.config) && Identified(x.fsm, c)
  {
    ConfigStays(w, Onward(w, c));
    if !w.owed {
      PumpedFsm(w);
      PumpKeepsChoice(w.fsm);
    } else {
      ReplyAccepted(w, c);
      if w.fsm.state == BoardIdRequest {
        BoardReplyIdentifies(w.fsm, c);
      } else {
        AnswerKeepsChoice(w.fsm, Reply(c, w.fsm.state));
      }
    }
  }

  lemma OnwardKeepsPast(w: World, c: Controller)
    requires Faithful(w) && Knows(w, c) && w.fsm.state != Ready
    ensures Enabled(w, Onward(w, c))
    ensures var x := Apply(w, Onward(w, c)); x.past == w.past && x.fsm.fallbackUsed == w.fsm.fallbackUsed
  {
    if w.owed {
      ReplyAccepted(w, c);
      PacketEffect(w.fsm, Reply(c, w.fsm.state));
    } else {
      PumpedFsm(w);
    }
  }

  lemma OnwardGoesOn(w: World, c: Controller)
    requires Faithful(w) && Knows(w, c) && w.fsm.state != Ready
    ensures Enabled(w, Onward(w, c))
    ensures var x := Apply(w, Onward(w, c)); Faithful(x) && Knows(x, c) && Descends(w, x)
  {
    if w.owed {
      ReplyGoesOn(w, c);
    } else {
      PumpGoesOn(w, c);
    }
    StepKeeps(w, Onward(w, c));
    StepDescends(w, Onward(w, c));
  }

  /** A run with one step in front. */
  lemma FirstStep(w: World, a: Step, later: seq<Step>)
    requires Enabled(w, a) && Runs(Apply(w, a), later)
    ensures Runs(w, [a] + later) && Run(w, [a] + later) == Run(Apply(w, a), later)
  {
    assert ([a] + later)[1..] == later;
  }

  /**
   The bring-up completes. Whatever board ID the controller reports, if it answers every request and a
   generic image for its chip is at hand, the run goes on to Ready from wherever it stands.
   */
  lemma {:induction false} RunCompletes(w: World, c: Controller) returns (steps: seq<Step>)
    requires Faithful(w) && Knows(w, c)
    ensures Runs(w, steps) && Run(w, steps).fsm.state == Ready
    ensures Run(w, steps).past == w.past && Run(w, steps).fsm.fallbackUsed == w.fsm.fallbackUsed
    ensures Identified(w.fsm, c) ==>
              Run(w, steps).fsm.id.soc == Soc(c) && Run(w, steps).fsm.id.boardId == Board(c)
    decreases Stage(w.fsm.state), Remaining(w.fsm), Pending(w)
  {
    if w.fsm.state == Ready {
      return [];
    }
    OnwardGoesOn(w, c);
    OnwardKeepsPast(w, c);
    if Identified(w.fsm, c) {
      OnwardIdentifies(w, c);
    }
    var later := RunCompletes(Apply(w, Onward(w, c)), c);
    FirstStep(w, Onward(w, c), later);
    steps := [Onward(w, c)] + later;
  }

  /** The name of the image this controller gets: its board's if a candidate has it, otherwise the generic one. */
  function Wanted(c: Controller, config: Config): string
    requires Cooperative(c, config)
  {
    var board := NvmName(Soc(c).socId, Soc(c).romVersion, Board(c));
    if Find(config.candidates, board) < |config.candidates| then board
    else NvmName(Soc(c).socId, Soc(c).romVersion, 0)
  }

  /** All of the patch and, but for its baud byte, all of the armed image went over the wire, and no more. */
  predicate Delivered(w: World, patch: seq<byte>, rate: nat) {
    var nvm := w.fsm.nvm;
    && w.fsm.state == Ready
    && w.fsm.tally.sent == SegmentCount(|patch|) + SegmentCount(|nvm.image|) + 7
    && nvm.pick < |w.fsm.config.candidates| && nvm.image == w.fsm.config.candidates[nvm.pick].image
    && BaudOffset(nvm.image) == Some(nvm.offset) && nvm.offset < |nvm.image|
    && RateOf(w.fsm.config.baudIndex) == Some(rate)
    && Carried(w.wire) == patch + nvm.image[nvm.offset := w.fsm.config.baudIndex]
  }

  lemma CleanRunDelivers(patch: seq<byte>, candidates: seq<Candidate>, rate: nat, steps: seq<Step>)
    requires Init(patch, candidates, rate).Some?
    requires Runs(Begin(Init(patch, candidates, rate).value), steps)
    requires var w := Run(Begin(Init(patch, candidates, rate).value), steps);
             w.fsm.state == Ready && !w.fsm.fallbackUsed && w.past.skip == 0 && w.past.lost == 0
    ensures Delivered(Run(Begin(Init(patch, candidates, rate).value), steps), patch, rate)
  {
    var w := Run(Begin(Init(patch, candidates, rate).value), steps);
    ExactCommandCount(patch, candidates, rate, steps);
    FirmwareFidelity(patch, candidates, rate, steps);
    PacketsMustBeOwed(patch, candidates, rate, steps);
    assert patch + [] == patch;
  }

  lemma ChosenIsWanted(w: World, c: Controller)
    requires Cooperative(c, w.fsm.config) && Downloading(w.fsm.state) && !w.fsm.fallbackUsed
    requires Chosen(w.fsm, w.past.dropped) && w.fsm.id.soc == Soc(c) && w.fsm.id.boardId == Board(c)
    ensures IsFirst(w.fsm.config, w.fsm.nvm, Wanted(c, w.fsm.config))
  {
    FindIsOffered(w.fsm.config, BoardImage(w.fsm.id));
  }

  lemma BeginKnows(patch: seq<byte>, candidates: seq<Candidate>, rate: nat, c: Controller)
    requires Init(patch, candidates, rate).Some?
    requires Cooperative(c, Init(patch, candidates, rate).value.config)
    ensures var w := Begin(Init(patch, candidates, rate).value);
            && Faithful(w) && Knows(w, c) && Identified(w.fsm, c) && !w.fsm.fallbackUsed
            && w.past.skip == 0 && w.past.lost == 0 && w.fsm.config.candidates == candidates
  {
    BeginFaithful(patch, candidates, rate);
  }

  /**
   From power-up such a run sends exactly one command per segment and seven more, and both files whole: the
   patch and the first candidate with the board's name or, without one, with the chip's generic name.
   */
  lemma BringUpCompletes(patch: seq<byte>, candidates: seq<Candidate>, rate: nat, c: Controller)
    returns (steps: seq<Step>)
    requires Init(patch, candidates, rate).Some?
    requires Cooperative(c, Init(patch, candidates, rate).value.config)
    ensures Runs(Begin(Init(patch, candidates, rate).value), steps)
    ensures var w := Run(Begin(Init(patch, candidates, rate).value), steps);
            && w.fsm.config == Init(patch, candidates, rate).value.config
            && Delivered(w, patch, rate)
            && IsFirst(w.fsm.config, w.fsm.nvm, Wanted(c, w.fsm.config))
  {
    var start := Begin(Init(patch, candidates, rate).value);
    BeginKnows(patch, candidates, rate, c);
    steps := RunCompletes(start, c);
    RunKeeps(start, steps);
    RunChooses(start, steps);
    CleanRunDelivers(patch, candidates, rate, steps);
    ChosenIsWanted(Run(start, steps), c);
  }

  /** One image named for the chip is enough for every board: what goes over the wire is then fixed. */
  lemma OneImageIsEnough(patch: seq<byte>, name: string, image: seq<byte>, rate: nat, c: Controller)
    returns (steps: seq<Step>)
    requires ParseTlv(patch).Some? && ParseTlv(patch).value.kind == PATCH
    requires Usable(image) && exists i: byte :: RateOf(i) == Some(rate)
    requires ParseVersion(c.version).Some? && ParseBoardId(c.board).Some?
    requires SameName(name, NvmName(Soc(c).socId, Soc(c).romVersion, 0))
    ensures var start := Init(patch, [Candidate(name, image)], rate);
            && start.Some? && Runs(Begin(start.value), steps)
            && var w := Run(Begin(start.value), steps);
            && w.fsm.state == Ready
            && w.fsm.tally.sent == SegmentCount(|patch|) + SegmentCount(|image|) + 7
            && RateOf(w.fsm.config.baudIndex) == Some(rate)
            && Carried(w.wire) == patch + image[BaudOffset(image).value := w.fsm.config.baudIndex]
  {
    var cs := [Candidate(name, image)];
    InitAccepts(patch, cs, rate);
    assert forall d <- cs :: d == cs[0];
    steps := BringUpCompletes(patch, cs, rate, c);
  }
}
