/**
 Which controller events answer which bring-up request (src/common/qca_tlv.c, src/common/qca_init_fsm.c).
 */
module Replies {
  import opened Bytes
  import opened Tlv

  const EVENT: byte := 4
  const VENDOR_EVENT: byte := 0xFF
  const COMMAND_COMPLETE: byte := 0x0E
  const EDL_OPCODE: u16 := 0xFC00
  const BAUD_OPCODE: u16 := 0xFC48
  const EVENT_START := 3

  const VERSION: byte := 0x19
  const SEGMENT_DONE: byte := 0x04
  const SEGMENT_REQUEST: byte := 0x1E
  const BOARD_ID: byte := 0x23
  const BUILD_INFO: byte := 0x20

  /** The data of an EDL answer of the given type, in either envelope. */
  function EdlResponse(p: seq<byte>, kind: byte): (r: Option<seq<byte>>)
    ensures r.Some? ==> |p| >= 5 && |r.value| <= |p|
  {
    if |p| < 5 || p[0] != EVENT || |p| != EVENT_START + p[2] then None
    else if p[1] == VENDOR_EVENT then Answer(p, 3, kind)
    else if p[1] == COMMAND_COMPLETE && |p| >= 8 && Rd16(p, 4) == EDL_OPCODE then Answer(p, 6, kind)
    else None
  }

  function Answer(p: seq<byte>, at: nat, kind: byte): Option<seq<byte>>
    requires at + 2 <= |p|
  {
    if p[at] == 0 && p[at + 1] == kind then Some(p[at + 2..]) else None
  }

  datatype SocVersion = SocVersion(productId: nat, patchVersion: u16, romField: u16, socId: nat, romVersion: byte)

  const NO_VERSION := SocVersion(0, 0, 0, 0, 0)

  /** Bits 8 to 11 and 0 to 3 of the ROM version field. */
  function RomVersion(field: u16): byte {
    field / 0x100 % 0x10 * 0x10 + field % 0x10
  }

  function Version(data: seq<byte>): Option<SocVersion>
    requires |data| == 12
  {
    var soc, rom := Rd32(data, 8), Rd16(data, 6);
    if soc == 0 || rom == 0 then None
    else Some(SocVersion(Rd32(data, 0), Rd16(data, 4), rom, soc, RomVersion(rom)))
  }

  /** A Command Complete carries one byte more before the version. */
  function ParseVersion(p: seq<byte>): Option<SocVersion> {
    var r := EdlResponse(p, VERSION);
    if r.None? then None
    else if p[1] == COMMAND_COMPLETE then if |r.value| != 13 then None else Version(r.value[1..])
    else if |r.value| != 12 then None
    else Version(r.value)
  }

  function ParseBoardId(p: seq<byte>): Option<u16> {
    var r := EdlResponse(p, BOARD_ID);
    if r.None? || |r.value| < 3 then None else Some(Le16(r.value[2], r.value[1]))
  }

  predicate IsSegmentAck(p: seq<byte>) {
    var done := EdlResponse(p, SEGMENT_DONE);
    if done.Some? then p[1] == VENDOR_EVENT && done.value == [0]
    else
      var request := EdlResponse(p, SEGMENT_REQUEST);
      request.Some? && p[1] == COMMAND_COMPLETE && request.value == []
  }

  predicate IsBuildInfo(p: seq<byte>) {
    var r := EdlResponse(p, BUILD_INFO);
    r.Some? && |r.value| >= 1 && r.value[0] <= |r.value| - 1
  }

  /** A successful Command Complete of an opcode. */
  predicate Completes(p: seq<byte>, opcode: u16) {
    && |p| >= 7 && p[0] == EVENT && p[1] == COMMAND_COMPLETE && p[2] >= 4 && |p| == EVENT_START + p[2]
    && Rd16(p, 4) == opcode && p[6] == 0
  }

  predicate IsLoggingDisabled(p: seq<byte>) {
    Completes(p, 0xFC17) && (|p| == 7 || (|p| == 8 && p[7] == 0x14))
  }

  predicate IsResetDone(p: seq<byte>) {
    Completes(p, 0x0C03) && |p| == 7
  }

  predicate IsLocalVersion(p: seq<byte>) {
    Completes(p, 0x1001) && |p| == 15
  }

  /** What the bring-up machine can wait for. */
  datatype Wait = ForVersion | ForSegment | ForBoardId | ForLogging | ForBuildInfo | ForReset | ForLocalVersion

  predicate Answers(p: seq<byte>, w: Wait) {
    match w
    case ForVersion => ParseVersion(p).Some?
    case ForSegment => IsSegmentAck(p)
    case ForBoardId => ParseBoardId(p).Some?
    case ForLogging => IsLoggingDisabled(p)
    case ForBuildInfo => IsBuildInfo(p)
    case ForReset => IsResetDone(p)
    case ForLocalVersion => IsLocalVersion(p)
  }

  /** The type an EDL answer declares. */
  function EdlType(p: seq<byte>): Option<byte> {
    if |p| < 5 || p[0] != EVENT || |p| != EVENT_START + p[2] then None
    else if p[1] == VENDOR_EVENT then if p[3] == 0 then Some(p[4]) else None
    else if p[1] == COMMAND_COMPLETE && |p| >= 8 && Rd16(p, 4) == EDL_OPCODE then
      if p[6] == 0 then Some(p[7]) else None
    else None
  }

  lemma ResponseHasItsType(p: seq<byte>, kind: byte)
    ensures EdlResponse(p, kind).Some? <==> EdlType(p) == Some(kind)
  {
  }

  /** What an answer must look like, told apart by its first bytes alone. */
  predicate LooksLike(p: seq<byte>, w: Wait) {
    match w
    case ForVersion => EdlType(p) == Some(VERSION)
    case ForSegment => EdlType(p) == Some(SEGMENT_DONE) || EdlType(p) == Some(SEGMENT_REQUEST)
    case ForBoardId => EdlType(p) == Some(BOARD_ID)
    case ForBuildInfo => EdlType(p) == Some(BUILD_INFO)
    case ForLogging => Completes(p, 0xFC17)
    case ForReset => Completes(p, 0x0C03)
    case ForLocalVersion => Completes(p, 0x1001)
  }

  lemma AnswersLookRight(p: seq<byte>, w: Wait)
    requires Answers(p, w)
    ensures LooksLike(p, w)
  {
    match w
    case ForVersion => ResponseHasItsType(p, VERSION);
    case ForSegment =>
      ResponseHasItsType(p, SEGMENT_DONE);
      ResponseHasItsType(p, SEGMENT_REQUEST);
    case ForBoardId => ResponseHasItsType(p, BOARD_ID);
    case ForBuildInfo => ResponseHasItsType(p, BUILD_INFO);
    case _ =>
  }

  /** No event answers two different requests, so a late answer is never taken for another request's. */
  lemma AnswersNeverConfused(p: seq<byte>, v: Wait, w: Wait)
    requires Answers(p, v) && Answers(p, w)
    ensures v == w
  {
    AnswersLookRight(p, v);
    AnswersLookRight(p, w);
  }

  /** The baud-rate command's own completion, which may arrive late, is no answer to anything. */
  lemma LateBaudReplyIgnored(p: seq<byte>, w: Wait)
    requires |p| >= 6 && p[1] == COMMAND_COMPLETE && Rd16(p, 4) == BAUD_OPCODE
    ensures !Answers(p, w)
  {
  }

  /* ---------------------------------------------------------------- answers byte by byte */

  /** The version record: product, patch, ROM version, chip. */
  function VersionRecord(product: nat, patch: u16, rom: u16, soc: nat): (d: seq<byte>)
    requires product < U32_SPAN && soc < U32_SPAN
    ensures |d| == 12
  {
    Put32(product) + Put16(patch) + Put16(rom) + Put32(soc)
  }

  /** An EDL answer as a vendor event, and as a Command Complete of 0xFC00. */
  function VendorForm(kind: byte, data: seq<byte>): seq<byte>
    requires |data| <= 253
  {
    [4, 0xFF, 2 + |data|, 0, kind] + data
  }

  function CompleteForm(allowed: byte, kind: byte, data: seq<byte>): seq<byte>
    requires |data| <= 250
  {
    [4, 0x0E, 5 + |data|, allowed, 0x00, 0xFC, 0, kind] + data
  }

  lemma FormsAreRead(allowed: byte, kind: byte, data: seq<byte>)
    requires |data| <= 250
    ensures EdlResponse(VendorForm(kind, data), kind) == Some(data)
    ensures EdlResponse(CompleteForm(allowed, kind, data), kind) == Some(data)
  {
    assert VendorForm(kind, data)[5..] == data && CompleteForm(allowed, kind, data)[8..] == data;
  }

  lemma RecordReads(product: nat, patch: u16, rom: u16, soc: nat)
    requires product < U32_SPAN && soc < U32_SPAN
    ensures var d := VersionRecord(product, patch, rom, soc);
            Rd32(d, 0) == product && Rd16(d, 4) == patch && Rd16(d, 6) == rom && Rd32(d, 8) == soc
  {
  }

  /**
   The version answer, in either form, reads back field by field; the ROM version is the third and the
   last hex digit of its field. A version without chip or ROM version is none.
   */
  lemma VersionReadsBack(product: nat, patch: u16, rom: u16, soc: nat, allowed: byte, skipped: byte)
    requires product < U32_SPAN && soc < U32_SPAN
    ensures var d := VersionRecord(product, patch, rom, soc);
            var v := if soc == 0 || rom == 0 then None
                     else Some(SocVersion(product, patch, rom, soc, 16 * (rom / 256 % 16) + rom % 16));
            && ParseVersion(VendorForm(0x19, d)) == v
            && ParseVersion(CompleteForm(allowed, 0x19, [skipped] + d)) == v
  {
    var d := VersionRecord(product, patch, rom, soc);
    FormsAreRead(allowed, 0x19, d);
    FormsAreRead(allowed, 0x19, [skipped] + d);
    RecordReads(product, patch, rom, soc);
    assert ([skipped] + d)[1..] == d;
  }

  /** The board ID comes behind one byte, high byte first. */
  lemma BoardIdReadsBack(board: u16, first: byte, more: seq<byte>, allowed: byte)
    requires |more| <= 247
    ensures var d := [first, board / 256, board % 256] + more;
            && ParseBoardId(VendorForm(0x23, d)) == Some(board)
            && ParseBoardId(CompleteForm(allowed, 0x23, d)) == Some(board)
  {
    var d := [first, board / 256, board % 256] + more;
    FormsAreRead(allowed, 0x23, d);
  }

  /** The acknowledgements and completions the bring-up waits for, byte for byte. */
  lemma AnswersSpelledOut(p: seq<byte>)
    ensures Answers(p, ForSegment)
            <==> p == [4, 0xFF, 3, 0, 0x04, 0]
                 || (|p| == 8 && p == [4, 0x0E, 5, p[3], 0x00, 0xFC, 0, 0x1E])
    ensures Answers(p, ForReset) <==> |p| == 7 && p == [4, 0x0E, 4, p[3], 0x03, 0x0C, 0]
    ensures Answers(p, ForLocalVersion)
            <==> |p| == 15 && p[..3] == [4, 0x0E, 12] && p[4..7] == [0x01, 0x10, 0]
    ensures Answers(p, ForLogging)
            <==> (|p| == 7 && p == [4, 0x0E, 4, p[3], 0x17, 0xFC, 0])
                 || (|p| == 8 && p == [4, 0x0E, 5, p[3], 0x17, 0xFC, 0, 0x14])
  {
  }
}
