/**
 The bring-up machine as the driver keeps it: one record updated by every pump, answer and timeout
 (src/common/qca_init_fsm.c).
 */
module InitFsm {
  import opened Bytes
  import opened Tlv
  import opened Replies
  import opened NvmNames
  import opened InitFsmSpec

  class QcaInitFsm {
    var state: State
    var config: Config
    var patchSegments: nat
    var patchIndex: nat
    var nvm: Armed
    var nvmSegments: nat
    var nvmIndex: nat
    var fallbackUsed: bool
    var id: Identity
    var tally: Tally

    ghost predicate Valid()
      reads this
    {
      && |config.patch| < U32_SPAN && patchSegments == SegmentCount(|config.patch|)
      && |nvm.image| < U32_SPAN && nvmSegments == SegmentCount(|nvm.image|)
    }

    ghost function Model(): Fsm
      reads this
    {
      Fsm(state, config, patchIndex, nvm, nvmIndex, fallbackUsed, id, tally)
    }

    constructor ()
      ensures Valid() && Model() == BLANK
    {
      state, config, patchSegments, patchIndex := Failed, NO_CONFIG, 0, 0;
      nvm, nvmSegments, nvmIndex, fallbackUsed := UNARMED, 0, 0, false;
      id, tally := Identity(NO_VERSION, 0, false), Tally(0, 0, 0, Start);
    }

    method Clear()
      modifies this
      ensures Valid() && Model() == BLANK
    {
      state, config, patchSegments, patchIndex := Failed, NO_CONFIG, 0, 0;
      nvm, nvmSegments, nvmIndex, fallbackUsed := UNARMED, 0, 0, false;
      id, tally := Identity(NO_VERSION, 0, false), Tally(0, 0, 0, Start);
    }

    method AllUsable(candidates: seq<Candidate>) returns (ok: bool)
      ensures ok <==> forall c <- candidates :: Usable(c.image)
    {
      for i := 0 to |candidates|
        invariant forall c <- candidates[..i] :: Usable(c.image)
      {
        var offset := FindNvmHciBaudOffset(candidates[i].image);
        if offset.None? {
          assert candidates[i] in candidates;
          return false;
        }
        assert candidates[..i + 1] == candidates[..i] + [candidates[i]];
      }
      assert candidates[..|candidates|] == candidates;
      return true;
    }

    /** Rejects every unfit image before a single byte reaches the chip. */
    method Init(patch: seq<byte>, candidates: seq<Candidate>, rate: nat) returns (ok: bool)
      modifies this
      ensures Valid()
      ensures var r := InitFsmSpec.Init(patch, candidates, rate);
              ok == r.Some? && Model() == if ok then r.value else BLANK
      ensures ok ==> config.baudRate == rate && RateOf(config.baudIndex) == Some(rate)
    {
      InitAccepts(patch, candidates, rate);
      Clear();
      if candidates == [] {
        return false;
      }
      var info := ParseTlv(patch);
      if info.None? || info.value.kind != PATCH {
        return false;
      }
      var usable := AllUsable(candidates);
      var index := BaudIndex(rate);
      if !usable || index.None? {
        return false;
      }
      SizeIsSmall(patch);
      config := Config(patch, info.value.mode, candidates, rate, index.value);
      patchSegments := SegmentCount(|patch|);
      state := Start;
      return true;
    }

    method FindNamed(name: string) returns (i: nat)
      ensures i == Find(config.candidates, name)
    {
      i := 0;
      while i < |config.candidates| && !SameName(config.candidates[i].name, name)
        invariant i <= |config.candidates|
        invariant forall j :: 0 <= j < i ==> !SameName(config.candidates[j].name, name)
      {
        i := i + 1;
      }
    }

    /** Chooses candidate i for download from its start; refuses an image without a baud byte to patch. */
    method ArmNvm(i: nat, name: string) returns (ok: bool)
      requires Valid() && i < |config.candidates|
      modifies `nvm, `nvmSegments, `nvmIndex
      ensures Valid()
      ensures var a := Arm(old(Model()), i, name);
              ok == a.Some? && Model() == if ok then a.value else old(Model())
    {
      var image := config.candidates[i].image;
      var offset := FindNvmHciBaudOffset(image);
      if offset.None? {
        return false;
      }
      SizeIsSmall(image);
      nvm := Armed(image, 0, offset.value, i, name);
      nvmSegments := SegmentCount(|image|);
      nvmIndex := 0;
      return true;
    }

    method SelectNvm() returns (ok: bool)
      requires Valid()
      modifies `nvm, `nvmSegments, `nvmIndex
      ensures Valid()
      ensures var a := InitFsmSpec.SelectNvm(old(Model()));
              ok == a.Some? && Model() == if ok then a.value else old(Model())
    {
      if |config.candidates| == 0 {
        return false;
      }
      var target := NvmName(id.soc.socId, id.soc.romVersion, id.boardId);
      var i := FindNamed(target);
      if i < |config.candidates| {
        ok := ArmNvm(i, target);
        return;
      }
      var alt := AltName(target, CAPACITY);
      if alt.None? {
        return false;
      }
      i := FindNamed(alt.value);
      if i == |config.candidates| {
        return false;
      }
      ok := ArmNvm(i, alt.value);
    }

    method Fail()
      modifies `state, `tally
      ensures Model() == GiveUp(old(Model()))
    {
      tally := tally.(lastFailure := state);
      state := Failed;
    }

    method BeginNvm()
      requires Valid()
      modifies this
      ensures Valid() && Model() == StartNvm(old(Model()))
    {
      var ok := SelectNvm();
      if ok {
        state := NvmDownload;
      } else {
        Fail();
      }
    }

    method OnBoardIdTimeout()
      requires Valid()
      modifies this
      ensures Valid() && Model() == InitFsmSpec.OnBoardIdTimeout(old(Model()))
    {
      if state != BoardIdRequest {
        return;
      }
      id := id.(boardId := 0, boardIdValid := false);
      BeginNvm();
    }

    method OnNvmFailure()
      requires Valid()
      modifies this
      ensures Valid() && Model() == InitFsmSpec.OnNvmFailure(old(Model()))
    {
      var alt := AltName(nvm.name, CAPACITY);
      if fallbackUsed || alt.None? {
        Fail();
        return;
      }
      var i := FindNamed(alt.value);
      if i == |config.candidates| {
        Fail();
        return;
      }
      var ok := ArmNvm(i, alt.value);
      if !ok {
        Fail();
        return;
      }
      fallbackUsed := true;
      state := NvmDownload;
    }

    method Put(buffer: array<byte>, command: seq<byte>) returns (n: nat)
      requires |command| <= buffer.Length
      modifies buffer
      ensures n == |command| && buffer[..n] == command
    {
      n := |command|;
      forall k | 0 <= k < n {
        buffer[k] := command[k];
      }
    }

    method NextPatch(buffer: array<byte>) returns (action: Action, length: nat)
      requires Valid() && buffer.Length >= MAX_COMMAND
      modifies this, buffer
      ensures Valid()
      ensures Moved(Model(), action) == InitFsmSpec.NextPatch(old(Model()))
      ensures length <= MAX_COMMAND && (action.Fail? || buffer[..length] == action.command)
    {
      var n, ack := BuildSegmentCommand(config.patch, patchIndex, config.mode, buffer, MAX_COMMAND);
      if n == 0 {
        Fail();
        return Action.Fail, 0;
      }
      length := n;
      tally := tally.(sent := tally.sent + 1);
      if !ack {
        patchIndex := patchIndex + 1;
        return SendNoWait(buffer[..n]), n;
      }
      return Send(buffer[..n]), n;
    }

    method NextNvm(buffer: array<byte>) returns (action: Action, length: nat)
      requires Valid() && buffer.Length >= MAX_COMMAND
      modifies this, buffer
      ensures Valid()
      ensures Moved(Model(), action) == InitFsmSpec.NextNvm(old(Model()))
      ensures length <= MAX_COMMAND && (action.Fail? || buffer[..length] == action.command)
    {
      var n, ack := BuildSegmentCommand(nvm.image, nvmIndex, nvm.mode, buffer, MAX_COMMAND);
      if n == 0 {
        Fail();
        return Action.Fail, 0;
      }
      ghost var plain := buffer[..n];
      var start := nvmIndex * SEGMENT;
      if nvm.offset >= start && nvm.offset - start < n - 6 {
        buffer[6 + (nvm.offset - start)] := config.baudIndex;
        assert buffer[..n] == plain[6 + (nvm.offset - start) := config.baudIndex];
      }
      length := n;
      tally := tally.(sent := tally.sent + 1);
      if !ack {
        nvmIndex := nvmIndex + 1;
        return SendNoWait(buffer[..n]), n;
      }
      return Send(buffer[..n]), n;
    }

    method Plain(buffer: array<byte>, command: seq<byte>) returns (action: Action, length: nat)
      requires Valid() && |command| <= MAX_COMMAND <= buffer.Length
      modifies `tally, buffer
      ensures Valid()
      ensures Model() == Count(old(Model())) && action == Send(command)
      ensures length <= MAX_COMMAND && buffer[..length] == command
    {
      length := Put(buffer, command);
      tally := tally.(sent := tally.sent + 1);
      action := Send(command);
    }

    /** The next operation; a command to write is in buffer[..length]. */
    method Next(buffer: array<byte>) returns (action: Action, length: nat)
      requires Valid() && buffer.Length >= MAX_COMMAND
      modifies this, buffer
      ensures Valid()
      ensures Moved(Model(), action) == InitFsmSpec.Next(old(Model()))
      ensures length <= MAX_COMMAND && (action.Fail? || action.Done? || buffer[..length] == action.command)
    {
      length := 0;
      match state
      case Start =>
        state := VersionRequest;
        action, length := Plain(buffer, EdlCommand(VERSION));
      case SetBaudRate =>
        if config.baudIndex > 17 {
          Fail();
          return Action.Fail, 0;
        }
        length := Put(buffer, BaudCommand(config.baudIndex));
        tally := tally.(sent := tally.sent + 1);
        state := PatchDownload;
        action := SendBaudAndSwitch(BaudCommand(config.baudIndex), config.baudRate);
      case PatchDownload => action, length := NextPatch(buffer);
      case BoardIdRequest => action, length := Plain(buffer, EdlCommand(BOARD_ID));
      case NvmDownload => action, length := NextNvm(buffer);
      case DisableLogging => action, length := Plain(buffer, LOGGING_COMMAND);
      case BuildInfo => action, length := Plain(buffer, EdlCommand(BUILD_INFO));
      case HciReset => action, length := Plain(buffer, PlainCommand(0x0C03));
      case ReadLocalVersion => action, length := Plain(buffer, PlainCommand(0x1001));
      case Ready => action := Done;
      case VersionRequest =>
        Fail();
        action := Action.Fail;
      case Failed =>
        Fail();
        action := Action.Fail;
    }

    method Advance(to: State)
      modifies `state, `tally
      ensures Model() == Handled(old(Model())).(state := to)
    {
      state := to;
      tally := tally.(handled := tally.handled + 1);
    }

    method AcceptBoardId(board: u16) returns (accepted: bool)
      requires Valid()
      modifies this
      ensures Valid()
      ensures Model() == StartNvm(WithBoard(Handled(old(Model())), board)) && accepted == (state != Failed)
    {
      id := id.(boardId := board, boardIdValid := true);
      tally := tally.(handled := tally.handled + 1);
      BeginNvm();
      accepted := state != Failed;
    }

    /** The answer the current state waits for has come. */
    method Accept(p: seq<byte>) returns (accepted: bool)
      requires Valid() && Takes(state, p)
      modifies this
      ensures Valid()
      ensures Fed(Model(), accepted) == TakeAnswer(old(Model()), p)
    {
      accepted := true;
      match state
      case VersionRequest =>
        id := id.(soc := ParseVersion(p).value);
        Advance(SetBaudRate);
      case PatchDownload =>
        patchIndex := patchIndex + 1;
        Advance(if patchIndex >= patchSegments then BoardIdRequest else PatchDownload);
      case BoardIdRequest =>
        accepted := AcceptBoardId(ParseBoardId(p).value);
      case NvmDownload =>
        nvmIndex := nvmIndex + 1;
        Advance(if nvmIndex >= nvmSegments then DisableLogging else NvmDownload);
      case DisableLogging => Advance(BuildInfo);
      case BuildInfo => Advance(HciReset);
      case HciReset => Advance(ReadLocalVersion);
      case ReadLocalVersion => Advance(Ready);
    }

    /** Takes the answer the current state waits for; anything else is only counted. */
    method OnPacket(p: seq<byte>) returns (accepted: bool)
      requires Valid()
      modifies this
      ensures Valid()
      ensures Fed(Model(), accepted) == InitFsmSpec.OnPacket(old(Model()), p)
    {
      if !Takes(state, p) {
        tally := tally.(unexpected := tally.unexpected + 1);
        return false;
      }
      accepted := Accept(p);
    }
  }
}
