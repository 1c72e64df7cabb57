/**
 The QCA2066 bring-up machine on values (src/common/qca_init_fsm.c): the commands it sends and the
 answers it takes.
 */
module InitFsmSpec {
  import opened Bytes
  import opened Tlv
  import opened Replies
  import opened NvmNames

  const MAX_COMMAND := 259

  datatype State =
    | Start | VersionRequest | SetBaudRate | PatchDownload | BoardIdRequest | NvmDownload
    | DisableLogging | BuildInfo | HciReset | ReadLocalVersion | Ready | Failed

  datatype Candidate = Candidate(name: string, image: seq<byte>)

  datatype Config = Config(patch: seq<byte>, mode: byte, candidates: seq<Candidate>, baudRate: nat, baudIndex: byte)

  const NO_CONFIG := Config([], 0, [], 0, 0)

  /** The image being downloaded, its download mode and the offset of its baud byte. */
  datatype Armed = Armed(image: seq<byte>, mode: byte, offset: nat, pick: nat, name: string)

  const UNARMED := Armed([], 0, 0, 0, "")

  datatype Identity = Identity(soc: SocVersion, boardId: u16, boardIdValid: bool)

  datatype Tally = Tally(sent: nat, handled: nat, unexpected: nat, lastFailure: State)

  datatype Fsm = Fsm(
    state: State, config: Config, patchIndex: nat,
    nvm: Armed, nvmIndex: nat, fallbackUsed: bool,
    id: Identity, tally: Tally)

  const BLANK := Fsm(Failed, NO_CONFIG, 0, UNARMED, 0, false, Identity(NO_VERSION, 0, false), Tally(0, 0, 0, Start))

  datatype Action =
    | Send(command: seq<byte>)
    | SendNoWait(command: seq<byte>)
    | SendBaudAndSwitch(command: seq<byte>, rate: nat)
    | Done
    | Fail

  datatype Moved = Moved(next: Fsm, action: Action)

  datatype Fed = Fed(next: Fsm, accepted: bool)

  /** The enumeration index the chip knows a bit rate by. */
  function BaudIndex(rate: nat): Option<byte> {
    match rate
    case 115200 => Some(0)
    case 921600 => Some(10)
    case 1000000 => Some(11)
    case 2000000 => Some(13)
    case 3000000 => Some(14)
    case 3200000 => Some(17)
    case _ => None
  }

  /** The bit rate an index of the chip's enumeration stands for. */
  function RateOf(index: byte): Option<nat> {
    match index
    case 0 => Some(115200)
    case 10 => Some(921600)
    case 11 => Some(1000000)
    case 13 => Some(2000000)
    case 14 => Some(3000000)
    case 17 => Some(3200000)
    case _ => None
  }

  /** An index is found for a rate exactly when the chip reads it as that rate. */
  lemma IndexNamesRate(rate: nat, index: byte)
    ensures BaudIndex(rate) == Some(index) <==> RateOf(index) == Some(rate)
  {
  }

  /** An image fit for the NVM download: a well-formed NVM file with a baud byte to patch. */
  predicate Usable(image: seq<byte>) {
    BaudOffset(image).Some?
  }

  function Init(patch: seq<byte>, candidates: seq<Candidate>, rate: nat): Option<Fsm> {
    if ParseTlv(patch).None? || ParseTlv(patch).value.kind != PATCH then None
    else if candidates == [] || (exists c <- candidates :: !Usable(c.image)) then None
    else if BaudIndex(rate).None? then None
    else
      Some(BLANK.(state := Start,
                  config := Config(patch, ParseTlv(patch).value.mode, candidates, rate, BaudIndex(rate).value)))
  }

  /**
   Initialisation succeeds exactly for a patch file, at least one candidate, all of them fit, and a rate
   the chip knows; the machine then holds the index the chip reads as that rate.
   */
  lemma InitAccepts(patch: seq<byte>, candidates: seq<Candidate>, rate: nat)
    ensures Init(patch, candidates, rate).Some?
            <==> && ParseTlv(patch).Some? && ParseTlv(patch).value.kind == 1
                 && candidates != [] && (forall c <- candidates :: Usable(c.image))
                 && exists i: byte :: RateOf(i) == Some(rate)
    ensures Init(patch, candidates, rate).Some? ==>
              var f := Init(patch, candidates, rate).value;
              && f.state == Start && f.config.patch == patch && f.config.candidates == candidates
              && f.config.mode == ParseTlv(patch).value.mode
              && f.config.baudRate == rate && RateOf(f.config.baudIndex) == Some(rate)
  {
    if BaudIndex(rate).Some? {
      IndexNamesRate(rate, BaudIndex(rate).value);
    }
    forall i: byte | RateOf(i) == Some(rate) ensures BaudIndex(rate).Some? {
      IndexNamesRate(rate, i);
    }
  }

  function GiveUp(f: Fsm): Fsm {
    f.(state := Failed, tally := f.tally.(lastFailure := f.state))
  }

  /* ---------------------------------------------------------------- choosing an image */

  /** The first candidate of that name, in any case, or the number of candidates. */
  function Find(candidates: seq<Candidate>, name: string): (i: nat)
    ensures i <= |candidates|
    ensures i < |candidates| ==> SameName(candidates[i].name, name)
    ensures forall j :: 0 <= j < i ==> !SameName(candidates[j].name, name)
    decreases |candidates|
  {
    if candidates == [] || SameName(candidates[0].name, name) then 0 else 1 + Find(candidates[1..], name)
  }

  function Arm(f: Fsm, i: nat, name: string): Option<Fsm>
    requires i < |f.config.candidates|
  {
    var image := f.config.candidates[i].image;
    if !Usable(image) then None
    else Some(f.(nvm := Armed(image, 0, BaudOffset(image).value, i, name), nvmIndex := 0))
  }

  function ArmNamed(f: Fsm, name: string): Option<Fsm> {
    var i := Find(f.config.candidates, name);
    if i == |f.config.candidates| then None else Arm(f, i, name)
  }

  /** The board's own image if there is one, otherwise the generic one. */
  function SelectNvm(f: Fsm): Option<Fsm> {
    var target := NvmName(f.id.soc.socId, f.id.soc.romVersion, f.id.boardId);
    if Find(f.config.candidates, target) < |f.config.candidates| then ArmNamed(f, target)
    else
      var alt := AltName(target, CAPACITY);
      if alt.None? then None else ArmNamed(f, alt.value)
  }

  function StartNvm(f: Fsm): Fsm {
    var s := SelectNvm(f);
    if s.None? then GiveUp(f) else s.value.(state := NvmDownload)
  }

  function OnBoardIdTimeout(f: Fsm): Fsm {
    if f.state != BoardIdRequest then f else StartNvm(f.(id := f.id.(boardId := 0, boardIdValid := false)))
  }

  /** One fallback to the generic image, from its first segment. */
  function OnNvmFailure(f: Fsm): Fsm {
    if f.fallbackUsed then GiveUp(f)
    else
      var alt := AltName(f.nvm.name, CAPACITY);
      if alt.None? then GiveUp(f)
      else
        var a := ArmNamed(f, alt.value);
        if a.None? then GiveUp(f) else a.value.(fallbackUsed := true, state := NvmDownload)
  }

  /* ---------------------------------------------------------------- commands */

  function EdlCommand(sub: byte): seq<byte> {
    [1, 0x00, 0xFC, 1, sub]
  }

  function BaudCommand(index: byte): seq<byte> {
    [1, 0x48, 0xFC, 1, index]
  }

  function PlainCommand(opcode: u16): seq<byte> {
    [1, opcode % 0x100, opcode / 0x100, 0]
  }

  const LOGGING_COMMAND: seq<byte> := [1, 0x17, 0xFC, 2, 0x14, 0x00]

  /** A download command of the NVM image, its baud byte replaced if this segment holds it. */
  function NvmCommand(nvm: Armed, i: nat, baudIndex: byte): seq<byte> {
    var c := SegmentCommand(Segment(nvm.image, i));
    if SEGMENT * i <= nvm.offset && nvm.offset - SEGMENT * i < |c| - 6 then
      c[6 + (nvm.offset - SEGMENT * i) := baudIndex]
    else c
  }

  function Count(f: Fsm): Fsm {
    f.(tally := f.tally.(sent := f.tally.sent + 1))
  }

  function NextPatch(f: Fsm): Moved {
    var i := f.patchIndex;
    if i >= SegmentCount(|f.config.patch|) then Moved(GiveUp(f), Fail)
    else
      var c := SegmentCommand(Segment(f.config.patch, i));
      if AckExpected(f.config.patch, i, f.config.mode) then Moved(Count(f), Send(c))
      else Moved(Count(f).(patchIndex := i + 1), SendNoWait(c))
  }

  function NextNvm(f: Fsm): Moved {
    var i := f.nvmIndex;
    if i >= SegmentCount(|f.nvm.image|) then Moved(GiveUp(f), Fail)
    else
      var c := NvmCommand(f.nvm, i, f.config.baudIndex);
      if AckExpected(f.nvm.image, i, f.nvm.mode) then Moved(Count(f), Send(c))
      else Moved(Count(f).(nvmIndex := i + 1), SendNoWait(c))
  }

  function Next(f: Fsm): Moved {
    match f.state
    case Start => Moved(Count(f).(state := VersionRequest), Send(EdlCommand(VERSION)))
    case SetBaudRate =>
      if f.config.baudIndex > 17 then Moved(GiveUp(f), Fail)
      else Moved(Count(f).(state := PatchDownload),
                 SendBaudAndSwitch(BaudCommand(f.config.baudIndex), f.config.baudRate))
    case PatchDownload => NextPatch(f)
    case BoardIdRequest => Moved(Count(f), Send(EdlCommand(BOARD_ID)))
    case NvmDownload => NextNvm(f)
    case DisableLogging => Moved(Count(f), Send(LOGGING_COMMAND))
    case BuildInfo => Moved(Count(f), Send(EdlCommand(BUILD_INFO)))
    case HciReset => Moved(Count(f), Send(PlainCommand(0x0C03)))
    case ReadLocalVersion => Moved(Count(f), Send(PlainCommand(0x1001)))
    case Ready => Moved(f, Done)
    case VersionRequest => Moved(GiveUp(f), Fail)
    case Failed => Moved(GiveUp(f), Fail)
  }

  /** The chip is told an index it reads as exactly the rate the host's line switches to with it. */
  lemma SwitchesTogether(patch: seq<byte>, candidates: seq<Candidate>, rate: nat, f: Fsm)
    requires Init(patch, candidates, rate).Some?
    requires f.config == Init(patch, candidates, rate).value.config && f.state == SetBaudRate
    ensures var a := Next(f).action;
            && a.SendBaudAndSwitch? && a.rate == rate
            && |a.command| == 5 && a.command[..4] == [1, 0x48, 0xFC, 1] && RateOf(a.command[4]) == Some(rate)
  {
    InitAccepts(patch, candidates, rate);
  }

  /* ---------------------------------------------------------------- answers */

  /** What a state waits for; the others take no answer. */
  function Awaits(s: State): Option<Wait> {
    match s
    case VersionRequest => Some(ForVersion)
    case PatchDownload => Some(ForSegment)
    case BoardIdRequest => Some(ForBoardId)
    case NvmDownload => Some(ForSegment)
    case DisableLogging => Some(ForLogging)
    case BuildInfo => Some(ForBuildInfo)
    case HciReset => Some(ForReset)
    case ReadLocalVersion => Some(ForLocalVersion)
    case _ => None
  }

  predicate Takes(s: State, p: seq<byte>) {
    Awaits(s).Some? && Answers(p, Awaits(s).value)
  }

  function Unexpected(f: Fsm): Fsm {
    f.(tally := f.tally.(unexpected := f.tally.unexpected + 1))
  }

  function Handled(f: Fsm): Fsm {
    f.(tally := f.tally.(handled := f.tally.handled + 1))
  }

  /** The machine has learned which board it runs on. */
  function WithBoard(f: Fsm, board: u16): Fsm {
    f.(id := f.id.(boardId := board, boardIdValid := true))
  }

  function TakeAnswer(f: Fsm, p: seq<byte>): Fed
    requires Takes(f.state, p)
  {
    var g := Handled(f);
    match f.state
    case VersionRequest => Fed(g.(id := f.id.(soc := ParseVersion(p).value), state := SetBaudRate), true)
    case PatchDownload =>
      Fed(g.(patchIndex := f.patchIndex + 1,
             state := if f.patchIndex + 1 >= SegmentCount(|f.config.patch|) then BoardIdRequest else PatchDownload),
          true)
    case BoardIdRequest =>
      var n := StartNvm(WithBoard(g, ParseBoardId(p).value));
      Fed(n, n.state != Failed)
    case NvmDownload =>
      Fed(g.(nvmIndex := f.nvmIndex + 1,
             state := if f.nvmIndex + 1 >= SegmentCount(|f.nvm.image|) then DisableLogging else NvmDownload),
          true)
    case DisableLogging => Fed(g.(state := BuildInfo), true)
    case BuildInfo => Fed(g.(state := HciReset), true)
    case HciReset => Fed(g.(state := ReadLocalVersion), true)
    case ReadLocalVersion => Fed(g.(state := Ready), true)
  }

  function OnPacket(f: Fsm, p: seq<byte>): Fed {
    if Takes(f.state, p) then TakeAnswer(f, p) else Fed(Unexpected(f), false)
  }

  /** Answers are never confused: only the two downloads share one, the segment acknowledgement. */
  lemma StatesNeverConfused(s: State, t: State, p: seq<byte>)
    requires Takes(s, p) && Takes(t, p)
    ensures s == t || {s, t} == {PatchDownload, NvmDownload}
  {
    AnswersNeverConfused(p, Awaits(s).value, Awaits(t).value);
  }

  /**
   A packet that is not accepted leaves everything as it was but the count of unexpected events; the
   one exception is a board ID for which no candidate image exists, and that ends the bring-up.
   */
  lemma RejectionIsHarmless(f: Fsm, p: seq<byte>)
    requires !OnPacket(f, p).accepted
    ensures OnPacket(f, p).next == Unexpected(f)
            <==> !(f.state == BoardIdRequest && ParseBoardId(p).Some?)
    ensures f.state == BoardIdRequest && ParseBoardId(p).Some? ==>
              && OnPacket(f, p).next.state == Failed
              && OnPacket(f, p).next.tally.lastFailure == BoardIdRequest
              && SelectNvm(WithBoard(Handled(f), ParseBoardId(p).value)).None?
  {
  }

  lemma LateBaudReplyRejected(f: Fsm, p: seq<byte>)
    requires |p| >= 6 && p[1] == COMMAND_COMPLETE && Rd16(p, 4) == BAUD_OPCODE
    ensures OnPacket(f, p) == Fed(Unexpected(f), false)
  {
  }
}
