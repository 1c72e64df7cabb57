/**
 A bring-up that goes wrong: with well-formed files and a controller that answers every request, one
 acknowledgement that comes after the download timeout costs the fallback image its first segment
 (src/driver/qca_uart.c).
 */
module BringUpLateAck {
  import opened Bytes
  import opened Tlv
  import opened Replies
  import opened NvmNames
  import opened InitFsmSpec
  import opened BringUp
  import opened BringUpCompletion

  lemma {:induction false} RunsAppend(w: World, a: seq<Step>, b: seq<Step>)
    requires Runs(w, a) && Runs(Run(w, a), b)
    ensures Runs(w, a + b) && Run(w, a + b) == Run(Run(w, a), b)
    decreases |a|
  {
    if a == [] {
      assert a + b == b;
    } else {
      assert (a + b)[0] == a[0] && (a + b)[1..] == a[1..] + b;
      RunsAppend(Apply(w, a[0]), a[1..], b);
    }
  }

  /** Not beyond the first segment of the first image. */
  predicate Early(w: World) {
    && !w.fsm.fallbackUsed
    && (BeforeNvm(w.fsm.state)
        || (w.fsm.state == NvmDownload && w.fsm.nvmIndex == 0 && (w.owed ==> w.asked == NvmDownload)))
  }

  predicate FirstSegmentSent(w: World) {
    w.fsm.state == NvmDownload && w.owed
  }

  lemma PumpStaysEarly(w: World)
    requires Faithful(w) && Early(w) && Enabled(w, Pump)
    ensures Early(Pumped(w))
  {
    PumpedFsm(w);
    if w.fsm.state == NvmDownload {
      PumpNvmEffect(w);
    } else {
      PumpEffect(w);
    }
  }

  lemma OnwardStaysEarly(w: World, c: Controller)
    requires Faithful(w) && Knows(w, c) && Early(w) && !FirstSegmentSent(w)
    ensures Enabled(w, Onward(w, c)) && Early(Apply(w, Onward(w, c)))
  {
    OnwardKeepsPast(w, c);
    if w.owed {
      ReplyAccepted(w, c);
      PacketEffect(w.fsm, Reply(c, w.fsm.state));
    } else {
      PumpStaysEarly(w);
    }
  }

  /** A cooperative run gets to where the first segment of the chosen image is on the wire. */
  lemma {:induction false} DownloadBegins(w: World, c: Controller) returns (steps: seq<Step>)
    requires Faithful(w) && Knows(w, c) && Early(w) && Identified(w.fsm, c)
    ensures Runs(w, steps)
    ensures var x := Run(w, steps);
            Faithful(x) && Knows(x, c) && Early(x) && Identified(x.fsm, c) && FirstSegmentSent(x) && x.past == w.past
    decreases Stage(w.fsm.state), Remaining(w.fsm), Pending(w)
  {
    if FirstSegmentSent(w) {
      return [];
    }
    OnwardGoesOn(w, c);
    OnwardKeepsPast(w, c);
    OnwardIdentifies(w, c);
    OnwardStaysEarly(w, c);
    var later := DownloadBegins(Apply(w, Onward(w, c)), c);
    FirstStep(w, Onward(w, c), later);
    steps := [Onward(w, c)] + later;
  }

  /** The board's own image was chosen, so there is a generic one to fall back to. */
  lemma FallbackSucceeds(f: Fsm, c: Controller)
    requires GoodConfig(f.config) && Cooperative(c, f.config) && !f.fallbackUsed
    requires f.id.soc == Soc(c) && KnownBoard(f.id.boardId) && f.nvm.name == BoardImage(f.id)
    ensures OnNvmFailure(f).state == NvmDownload
  {
    FallbackIsGeneric(f.id.soc.socId, f.id.soc.romVersion, f.id.boardId);
    var i := Find(f.config.candidates, GenericImage(f.id));
    assert f.config.candidates[i] in f.config.candidates;
  }

  lemma LateAckKeepsIdentity(f: Fsm, c: Controller)
    requires Cooperative(c, f.config) && GoodConfig(f.config) && !f.fallbackUsed && f.state == NvmDownload
    requires Chosen(f, f.nvm) && Identified(f, c) && OnNvmFailure(f).state == NvmDownload
    ensures var g := OnPacket(OnNvmFailure(f), VENDOR_ACK).next;
            g.config == f.config && g.id == f.id
  {
    NvmFailureArms(f);
    AnswerKeepsChoice(OnNvmFailure(f), VENDOR_ACK);
  }

  /** After the timeout the fallback is armed and the flag is still up: the acknowledgement is taken. */
  lemma LateAckEffect(w: World, c: Controller)
    requires Faithful(w) && Knows(w, c) && Early(w) && FirstSegmentSent(w) && Identified(w.fsm, c)
    requires Chosen(w.fsm, w.past.dropped) && KnownBoard(Board(c)) && Offered(w.fsm.config, BoardImage(w.fsm.id))
    ensures Enabled(w, NvmTimesOut)
    ensures var x := Apply(w, NvmTimesOut);
            && Faithful(x) && x.fsm.state == NvmDownload && x.fsm.fallbackUsed && x.fsm.config == w.fsm.config
            && x.past == Past(w.fsm.nvm, 1, w.past.skip, 0)
            && x.flag && !x.owed && OnPacket(x.fsm, VENDOR_ACK).accepted
  {
    FallbackSucceeds(w.fsm, c);
    StepKeeps(w, NvmTimesOut);
    NvmFailureEffect(w.fsm);
    AckIsTaken();
  }

  lemma LateAckIsTaken(x: World, c: Controller)
    requires Faithful(x) && x.fsm.state == NvmDownload && x.fsm.fallbackUsed && Cooperative(c, x.fsm.config)
    requires x.flag && !x.owed && OnPacket(x.fsm, VENDOR_ACK).accepted
    ensures var y := Apply(x, Packet(VENDOR_ACK));
            Faithful(y) && Knows(y, c) && y.fsm.fallbackUsed && y.past == x.past.(skip := x.past.skip + 1)
  {
    StepKeeps(x, Packet(VENDOR_ACK));
    PacketEffect(x.fsm, VENDOR_ACK);
  }

  lemma TwoSteps(w: World, a: Step, b: Step)
    requires Enabled(w, a) && Enabled(Apply(w, a), b)
    ensures Runs(w, [a] + [b]) && Run(w, [a] + [b]) == Apply(Apply(w, a), b)
  {
    assert [b] + [] == [b];
    FirstStep(Apply(w, a), b, []);
    FirstStep(w, a, [b]);
  }

  lemma LateAckArrives(w: World, c: Controller)
    requires Faithful(w) && Knows(w, c) && Early(w) && FirstSegmentSent(w) && Identified(w.fsm, c)
    requires Chosen(w.fsm, w.past.dropped) && KnownBoard(Board(c)) && Offered(w.fsm.config, BoardImage(w.fsm.id))
    requires w.past.skip == 0
    ensures Runs(w, [NvmTimesOut] + [Packet(VENDOR_ACK)])
    ensures var y := Run(w, [NvmTimesOut] + [Packet(VENDOR_ACK)]);
            && Faithful(y) && Knows(y, c) && y.fsm.fallbackUsed && Identified(y.fsm, c)
            && y.past == Past(w.fsm.nvm, 1, 0, 1)
  {
    LateAckEffect(w, c);
    LateAckIsTaken(Apply(w, NvmTimesOut), c);
    LateAckKeepsIdentity(w.fsm, c);
    TwoSteps(w, NvmTimesOut, Packet(VENDOR_ACK));
  }

  /**
   Ready with the generic image, of which the wire carried everything but the first segment, after the patch
   and the first segment of the board's image.
   */
  predicate MissesSegment(w: World, patch: seq<byte>, c: Controller)
    requires ParseVersion(c.version).Some? && ParseBoardId(c.board).Some?
  {
    var nvm, board := w.fsm.nvm, w.past.dropped;
    && w.fsm.state == Ready
    && IsFirst(w.fsm.config, nvm, NvmName(Soc(c).socId, Soc(c).romVersion, 0))
    && IsFirst(w.fsm.config, board, NvmName(Soc(c).socId, Soc(c).romVersion, Board(c)))
    && Carried(w.wire)
       == patch + Stretch(Patched(board, w.fsm.config.baudIndex), 0, 1)
          + Stretch(Patched(nvm, w.fsm.config.baudIndex), 1, SegmentCount(|nvm.image|))
    && Carried(w.wire)
       != patch + Stretch(Patched(board, w.fsm.config.baudIndex), 0, 1) + Patched(nvm, w.fsm.config.baudIndex)
  }

  lemma LateEnd(patch: seq<byte>, candidates: seq<Candidate>, rate: nat, steps: seq<Step>, c: Controller)
    requires Init(patch, candidates, rate).Some?
    requires Cooperative(c, Init(patch, candidates, rate).value.config)
    requires Runs(Begin(Init(patch, candidates, rate).value), steps)
    requires var w := Run(Begin(Init(patch, candidates, rate).value), steps);
             && w.fsm.state == Ready && w.fsm.fallbackUsed
             && w.past == Past(w.past.dropped, 1, 0, 1)
             && w.fsm.id.soc == Soc(c) && w.fsm.id.boardId == Board(c)
    ensures MissesSegment(Run(Begin(Init(patch, candidates, rate).value), steps), patch, c)
    ensures Run(Begin(Init(patch, candidates, rate).value), steps).fsm.config
            == Init(patch, candidates, rate).value.config
  {
    var start := Begin(Init(patch, candidates, rate).value);
    BeginKnows(patch, candidates, rate, c);
    RunKeeps(start, steps);
    FirmwareFidelity(patch, candidates, rate, steps);
    PacketsMustBeOwed(patch, candidates, rate, steps);
  }

  /**
   A late acknowledgement loses firmware. If a board has its own image and the chip a generic one, then with
   a controller that answers every request there is a run to Ready in which the first segment of the
   generic image, the one the machine ends up with, is never on the wire.
   */
  lemma LateAckLosesSegment(patch: seq<byte>, candidates: seq<Candidate>, rate: nat, c: Controller)
    returns (steps: seq<Step>)
    requires Init(patch, candidates, rate).Some?
    requires Cooperative(c, Init(patch, candidates, rate).value.config)
    requires KnownBoard(Board(c))
    requires Offered(Init(patch, candidates, rate).value.config, NvmName(Soc(c).socId, Soc(c).romVersion, Board(c)))
    ensures Runs(Begin(Init(patch, candidates, rate).value), steps)
    ensures MissesSegment(Run(Begin(Init(patch, candidates, rate).value), steps), patch, c)
    ensures Run(Begin(Init(patch, candidates, rate).value), steps).fsm.config
            == Init(patch, candidates, rate).value.config
  {
    var start := Begin(Init(patch, candidates, rate).value);
    BeginKnows(patch, candidates, rate, c);
    var a := DownloadBegins(start, c);
    var w := Run(start, a);
    RunKeeps(start, a);
    RunChooses(start, a);
    LateAckArrives(w, c);
    var late := [NvmTimesOut] + [Packet(VENDOR_ACK)];
    var y := Run(w, late);
    var b := RunCompletes(y, c);
    RunsAppend(w, late, b);
    RunsAppend(start, a, late + b);
    steps := a + (late + b);
    LateEnd(patch, candidates, rate, steps, c);
  }

  /* ---------------------------------------------------------------- such files exist */

  /** A patch of 28 bytes qualifies: a header, 24 bytes of metadata, a known download mode. */
  lemma SmallPatchQualifies(d: seq<byte>)
    requires |d| == 28 && d[0] == PATCH && d[1] == 24 && d[2] == 0 && d[3] == 0 && d[14] <= 3
    ensures ParseTlv(d) == Some(TlvInfo(PATCH, 24, d[14]))
  {
    DeclaredLength(d);
  }

  /** An image of 19 bytes qualifies: one HCI tag with three data bytes, the second of them the baud index. */
  lemma SmallNvmQualifies(d: seq<byte>)
    requires |d| == 19 && d[0] == NVM && d[1] == 15 && d[2] == 0 && d[3] == 0
    requires d[4] == TAG_HCI && d[5] == 0 && d[6] == 3 && d[7] == 0
    ensures Usable(d) && BaudOffset(d) == Some(17)
  {
    DeclaredLength(d);
    assert Rd16(d, 4) == 17 && Rd16(d, 6) == 3;
  }

  /** A vendor event of 17 bytes names chip 1 with ROM version 0x21. */
  lemma SmallVersionQualifies(p: seq<byte>)
    requires |p| == 17 && p[0] == EVENT && p[1] == VENDOR_EVENT && p[2] == 14 && p[3] == 0 && p[4] == VERSION
    requires p[11] == 1 && p[12] == 2 && p[13] == 1 && p[14] == 0 && p[15] == 0 && p[16] == 0
    ensures ParseVersion(p).Some? && ParseVersion(p).value.socId == 1 && ParseVersion(p).value.romVersion == 0x21
  {
    var d := p[5..];
    assert Rd16(d, 6) == 0x201 && Rd16(d, 8) == 1 && Rd16(d, 10) == 0;
    assert RomVersion(0x201) == 0x21;
  }

  /** A vendor event of 8 bytes reports the board in its last two bytes. */
  lemma SmallBoardQualifies(p: seq<byte>)
    requires |p| == 8 && p[0] == EVENT && p[1] == VENDOR_EVENT && p[2] == 5 && p[3] == 0 && p[4] == BOARD_ID
    ensures ParseBoardId(p) == Some(Le16(p[7], p[6]))
  {
    assert p[5..][1] == p[6] && p[5..][2] == p[7];
  }

  lemma SmallPatch() returns (patch: seq<byte>)
    ensures ParseTlv(patch).Some? && ParseTlv(patch).value.kind == PATCH
  {
    patch := [PATCH, 24, 0, 0, 0, 0, 0, 0, 0, 0, 0, 0, 0, 0, 0, 0, 0, 0, 0, 0, 0, 0, 0, 0, 0, 0, 0, 0];
    SmallPatchQualifies(patch);
  }

  lemma SmallImage() returns (image: seq<byte>)
    ensures Usable(image)
  {
    image := [NVM, 15, 0, 0, TAG_HCI, 0, 3, 0, 0, 0, 0, 0, 0, 0, 0, 0, 0, 0, 0];
    SmallNvmQualifies(image);
  }

  lemma SmallAnswers() returns (c: Controller)
    ensures ParseVersion(c.version).Some? && ParseBoardId(c.board).Some? && KnownBoard(Board(c))
  {
    var version := [EVENT, VENDOR_EVENT, 14, 0, VERSION, 0, 0, 0, 0, 0, 0, 1, 2, 1, 0, 0, 0];
    var board := [EVENT, VENDOR_EVENT, 5, 0, BOARD_ID, 0, 1, 2];
    SmallVersionQualifies(version);
    SmallBoardQualifies(board);
    c := Controller(version, board);
  }

  /** The premises can be met: such a run really exists, with files of 28 and 19 bytes. */
  lemma LateAckHappens() returns (patch: seq<byte>, candidates: seq<Candidate>, c: Controller, steps: seq<Step>)
    ensures Init(patch, candidates, 3000000).Some?
    ensures Runs(Begin(Init(patch, candidates, 3000000).value), steps)
    ensures ParseVersion(c.version).Some? && ParseBoardId(c.board).Some?
    ensures MissesSegment(Run(Begin(Init(patch, candidates, 3000000).value), steps), patch, c)
  {
    patch := SmallPatch();
    var image := SmallImage();
    c := SmallAnswers();
    var own, generic := NvmName(Soc(c).socId, Soc(c).romVersion, Board(c)), NvmName(Soc(c).socId, Soc(c).romVersion, 0);
    candidates := [Candidate(own, image), Candidate(generic, image)];
    assert forall d <- candidates :: d == candidates[0] || d == candidates[1];
    assert SameName(candidates[0].name, own) && candidates[0] in candidates;
    assert SameName(candidates[1].name, generic);
    steps := LateAckLosesSegment(patch, candidates, 3000000, c);
  }
}
