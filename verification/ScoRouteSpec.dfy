/**
 Voice-link setup on the HCI data path (src/common/sco_route.c): legacy commands become Enhanced ones
 (sections 7.1.26, 7.1.27, 7.1.45 and 7.1.46 of Bluetooth Core Specification Vol 4 Part E) and the
 answers get the legacy opcode back.
 */
module ScoRouteSpec {
  import opened Bytes
  import opened Tlv

  const SETUP: u16 := 0x0428
  const ACCEPT: u16 := 0x0429
  const ENHANCED_SETUP: u16 := 0x043D
  const ENHANCED_ACCEPT: u16 := 0x043E
  const SETUP_PARAMS: byte := 59
  const ACCEPT_PARAMS: byte := 63

  datatype Route = Route(setup: byte, accept: byte, rewritten: nat, restored: nat)

  const IDLE := Route(0, 0, 0, 0)

  function Opcode(c: seq<byte>): u16
    requires |c| >= 2
  {
    Le16(c[0], c[1])
  }

  /** How much of a legacy command names the link: a handle for Setup, an address for Accept. */
  function IdLength(c: seq<byte>): (n: nat)
    ensures n == 0 || (n == 2 && |c| == 20) || (n == 6 && |c| == 24)
  {
    if |c| < 3 then 0
    else if Opcode(c) == SETUP && c[2] == 17 && |c| == 20 then 2
    else if Opcode(c) == ACCEPT && c[2] == 21 && |c| == 24 then 6
    else 0
  }

  datatype Coding = Transparent | Cvsd

  /** Bits 0-1 are the air coding, bits 5-9 the host format; 3 there is 16-bit linear two's complement. */
  function CodingOf(voice: u16): Option<Coding> {
    if voice % 4 == 3 then Some(Transparent)
    else if voice % 4 == 0 && voice / 0x20 % 0x20 == 3 then Some(Cvsd)
    else None
  }

  /** The parameters of a link that both forms of the command carry. */
  datatype Link = Link(
    id: seq<byte>, bandwidths: seq<byte>, latency: seq<byte>, packetTypes: seq<byte>, effort: byte)

  /** Legacy layout after the identifier: bandwidths, latency, voice setting, effort, packet types. */
  function LegacyLink(c: seq<byte>): Link
    requires IdLength(c) > 0
  {
    var at := 3 + IdLength(c);
    Link(c[3..at], c[at..at + 8], c[at + 8..at + 10], c[at + 13..at + 15], c[at + 12])
  }

  function VoiceSetting(c: seq<byte>): u16
    requires IdLength(c) > 0
  {
    Rd16(c, 13 + IdLength(c))
  }

  predicate Rewritable(c: seq<byte>) {
    IdLength(c) > 0 && CodingOf(VoiceSetting(c)).Some?
  }

  /** A coding format and its two unused vendor fields. */
  function CodingFormat(id: byte): seq<byte> {
    [id, 0, 0, 0, 0]
  }

  /** Air coding both ways, its frame size, and the host's bandwidth. */
  function AirPart(coding: Coding): seq<byte> {
    var air, rate := if coding == Transparent then 3 else 2, if coding == Transparent then 8000 else 16000;
    CodingFormat(air) + CodingFormat(air) + Put16(60) + Put16(60) + Put32(rate) + Put32(rate)
  }

  /** Host coding both ways, sample size and format, HCI data paths, transport units. */
  function HostPart(coding: Coding): seq<byte> {
    var host, units := if coding == Transparent then 3 else 4, if coding == Transparent then 1 else 16;
    CodingFormat(host) + CodingFormat(host) + Put16(16) + Put16(16) + [2, 2, 0, 0, 0, 0, units, units]
  }

  function EnhancedOpcode(opcode: u16): u16 {
    if opcode == SETUP then ENHANCED_SETUP else ENHANCED_ACCEPT
  }

  function Params(opcode: u16): byte {
    if opcode == SETUP then SETUP_PARAMS else ACCEPT_PARAMS
  }

  function Enhanced(opcode: u16, link: Link, coding: Coding): seq<byte> {
    Put16(EnhancedOpcode(opcode)) + [Params(opcode)] + link.id + link.bandwidths
    + AirPart(coding) + HostPart(coding) + link.latency + link.packetTypes + [link.effort]
  }

  function Saturate(n: byte): byte {
    if n < 0xFF then n + 1 else n
  }

  datatype Rewritten = Rewritten(next: Route, out: Option<seq<byte>>)

  function Rewrite(r: Route, c: seq<byte>, capacity: nat): Rewritten {
    if !Rewritable(c) || capacity < 3 + Params(Opcode(c)) as nat then Rewritten(r, None)
    else
      var s := if Opcode(c) == SETUP then r.(setup := Saturate(r.setup)) else r.(accept := Saturate(r.accept));
      Rewritten(s.(rewritten := r.rewritten + 1),
                Some(Enhanced(Opcode(c), LegacyLink(c), CodingOf(VoiceSetting(c)).value)))
  }

  /** Where an answer carries its opcode: Command Status and Command Complete differ. */
  function OpcodeAt(e: seq<byte>): (at: nat)
    ensures at == 0 || at + 2 <= |e|
  {
    if |e| >= 6 && e[0] == 0x0F then 4 else if |e| >= 6 && e[0] == 0x0E then 3 else 0
  }

  function AnsweredOpcode(e: seq<byte>): Option<u16> {
    if OpcodeAt(e) == 0 then None else Some(Rd16(e, OpcodeAt(e)))
  }

  function WithOpcode(e: seq<byte>, opcode: u16): (f: seq<byte>)
    requires OpcodeAt(e) > 0
    ensures |f| == |e|
  {
    e[OpcodeAt(e) := opcode % 0x100][OpcodeAt(e) + 1 := opcode / 0x100]
  }

  datatype Restored = Restored(next: Route, event: seq<byte>, changed: bool)

  function Restore(r: Route, e: seq<byte>): Restored {
    var op := AnsweredOpcode(e);
    if op == Some(ENHANCED_SETUP) && r.setup != 0 then
      Restored(r.(setup := r.setup - 1, restored := r.restored + 1), WithOpcode(e, SETUP), true)
    else if op == Some(ENHANCED_ACCEPT) && r.accept != 0 then
      Restored(r.(accept := r.accept - 1, restored := r.restored + 1), WithOpcode(e, ACCEPT), true)
    else Restored(r, e, false)
  }

  /* ---------------------------------------------------------------- one command */

  /** What an Enhanced command says about the link, read at the positions the standard gives them. */
  function EnhancedLink(c: seq<byte>, idLength: nat): Link
    requires |c| == 60 + idLength
  {
    var at := 3 + idLength;
    Link(c[3..at], c[at..at + 8], c[at + 52..at + 54], c[at + 54..at + 56], c[at + 56])
  }

  /** How voice is coded on the air both ways, and the byte rates of the host. */
  datatype AirCodec = AirCodec(
    tx: seq<byte>, rx: seq<byte>, txFrame: u16, rxFrame: u16, inRate: nat, outRate: nat)

  /** How voice is coded towards the host both ways, and the path and unit it travels in. */
  datatype HostCodec = HostCodec(
    input: seq<byte>, output: seq<byte>, inBits: u16, outBits: u16,
    format: seq<byte>, msb: seq<byte>, path: seq<byte>, unit: seq<byte>)

  function ReadAir(d: seq<byte>): AirCodec
    requires |d| == 22
  {
    AirCodec(d[..5], d[5..10], Rd16(d, 10), Rd16(d, 12), Rd32(d, 14), Rd32(d, 18))
  }

  function ReadHost(d: seq<byte>): HostCodec
    requires |d| == 22
  {
    HostCodec(d[..5], d[5..10], Rd16(d, 10), Rd16(d, 12), d[14..16], d[16..18], d[18..20], d[20..22])
  }

  /** A coded stream is carried through unchanged, at 8000 bytes a second. */
  const TRANSPARENT_AIR := AirCodec([3, 0, 0, 0, 0], [3, 0, 0, 0, 0], 60, 60, 8000, 8000)
  const TRANSPARENT_HOST := HostCodec(
    [3, 0, 0, 0, 0], [3, 0, 0, 0, 0], 16, 16, [2, 2], [0, 0], [0, 0], [1, 1])

  /** CVSD on the air, 16-bit linear samples for the host at 16000 bytes a second. */
  const CVSD_AIR := AirCodec([2, 0, 0, 0, 0], [2, 0, 0, 0, 0], 60, 60, 16000, 16000)
  const LINEAR_HOST := HostCodec(
    [4, 0, 0, 0, 0], [4, 0, 0, 0, 0], 16, 16, [2, 2], [0, 0], [0, 0], [16, 16])

  /** The coding an Enhanced command asks for, read where section 7.1.45 puts it. */
  predicate Codes(c: seq<byte>, idLength: nat, air: AirCodec, host: HostCodec)
    requires |c| == 60 + idLength
  {
    ReadAir(c[11 + idLength..33 + idLength]) == air && ReadHost(c[33 + idLength..55 + idLength]) == host
  }

  predicate Shaped(link: Link, idLength: nat) {
    |link.id| == idLength && |link.bandwidths| == 8 && |link.latency| == 2 && |link.packetTypes| == 2
  }

  lemma Sections(h: seq<byte>, i: seq<byte>, b: seq<byte>, a: seq<byte>, c: seq<byte>,
                 l: seq<byte>, p: seq<byte>, e: byte)
    requires |h| == 3 && |b| == 8 && |a| == 22 && |c| == 22 && |l| == 2 && |p| == 2
    ensures var out, at := h + i + b + a + c + l + p + [e], 3 + |i|;
            && out[..3] == h && out[3..at] == i && out[at..at + 8] == b
            && out[at + 8..at + 30] == a && out[at + 30..at + 52] == c
            && out[at + 52..at + 54] == l && out[at + 54..at + 56] == p && out[at + 56] == e
  {
  }

  lemma AirOf(f: seq<byte>, rate: nat)
    requires |f| == 5 && rate < U16_SPAN
    ensures var d := f + f + Put16(60) + Put16(60) + Put32(rate) + Put32(rate);
            |d| == 22 && ReadAir(d) == AirCodec(f, f, 60, 60, rate, rate)
  {
    var d := f + f + Put16(60) + Put16(60) + Put32(rate) + Put32(rate);
    assert d[..5] == f && d[5..10] == f;
  }

  lemma HostOf(f: seq<byte>, unit: byte)
    requires |f| == 5
    ensures var d := f + f + Put16(16) + Put16(16) + [2, 2, 0, 0, 0, 0, unit, unit];
            |d| == 22 && ReadHost(d) == HostCodec(f, f, 16, 16, [2, 2], [0, 0], [0, 0], [unit, unit])
  {
    var d := f + f + Put16(16) + Put16(16) + [2, 2, 0, 0, 0, 0, unit, unit];
    assert d[..5] == f && d[5..10] == f;
    assert d[14..16] == [2, 2] && d[16..18] == [0, 0] && d[18..20] == [0, 0] && d[20..22] == [unit, unit];
  }

  lemma AirReads(coding: Coding)
    ensures |AirPart(coding)| == 22
    ensures ReadAir(AirPart(coding)) == if coding == Transparent then TRANSPARENT_AIR else CVSD_AIR
  {
    var air, rate := if coding == Transparent then 3 else 2, if coding == Transparent then 8000 else 16000;
    AirOf(CodingFormat(air), rate);
  }

  lemma HostReads(coding: Coding)
    ensures |HostPart(coding)| == 22
    ensures ReadHost(HostPart(coding)) == if coding == Transparent then TRANSPARENT_HOST else LINEAR_HOST
  {
    var host, unit := if coding == Transparent then 3 else 4, if coding == Transparent then 1 else 16;
    HostOf(CodingFormat(host), unit);
  }

  lemma EnhancedReadsBack(opcode: u16, link: Link, coding: Coding)
    requires Shaped(link, if opcode == SETUP then 2 else 6)
    ensures var out := Enhanced(opcode, link, coding);
            && |out| == 3 + Params(opcode) as nat
            && out[..3] == Put16(EnhancedOpcode(opcode)) + [Params(opcode)]
            && EnhancedLink(out, |link.id|) == link
            && out[11 + |link.id|..33 + |link.id|] == AirPart(coding)
            && out[33 + |link.id|..55 + |link.id|] == HostPart(coding)
  {
    var head := Put16(EnhancedOpcode(opcode)) + [Params(opcode)];
    AirReads(coding);
    HostReads(coding);
    Sections(head, link.id, link.bandwidths, AirPart(coding), HostPart(coding),
             link.latency, link.packetTypes, link.effort);
  }

  lemma EnhancedCodes(opcode: u16, link: Link, coding: Coding)
    requires Shaped(link, if opcode == SETUP then 2 else 6)
    ensures |Enhanced(opcode, link, coding)| == 60 + |link.id|
    ensures coding == Transparent ==>
              Codes(Enhanced(opcode, link, coding), |link.id|, TRANSPARENT_AIR, TRANSPARENT_HOST)
    ensures coding == Cvsd ==> Codes(Enhanced(opcode, link, coding), |link.id|, CVSD_AIR, LINEAR_HOST)
  {
    EnhancedReadsBack(opcode, link, coding);
    AirReads(coding);
    HostReads(coding);
  }

  lemma LegacyShape(c: seq<byte>)
    requires IdLength(c) > 0
    ensures Shaped(LegacyLink(c), if Opcode(c) == SETUP then 2 else 6)
    ensures |LegacyLink(c).id| == IdLength(c)
  {
  }

  lemma HeadReads(out: seq<byte>, opcode: u16)
    requires |out| >= 3 && out[..3] == Put16(EnhancedOpcode(opcode)) + [Params(opcode)]
    ensures Opcode(out) == EnhancedOpcode(opcode) && out[2] == Params(opcode)
  {
    assert out[0] == out[..3][0] && out[1] == out[..3][1] && out[2] == out[..3][2];
  }

  /** A legacy command byte for byte: opcode, length, link identifier, parameters, voice setting. */
  function Legacy(opcode: u16, link: Link, voice: u16): seq<byte>
    requires |link.id| <= 6
  {
    Put16(opcode) + [15 + |link.id|] + link.id + link.bandwidths + link.latency + Put16(voice)
    + [link.effort] + link.packetTypes
  }

  /** Setup names the link by a handle, Accept by an address. */
  predicate Proper(opcode: u16, link: Link) {
    (opcode == 0x0428 && Shaped(link, 2)) || (opcode == 0x0429 && Shaped(link, 6))
  }

  /** Transparent air coding, or CVSD of 16-bit linear two's complement samples. */
  predicate Carriable(voice: u16) {
    voice % 4 == 3 || (voice % 4 == 0 && voice / 0x20 % 0x20 == 3)
  }

  lemma LegacySections(h: seq<byte>, i: seq<byte>, b: seq<byte>, l: seq<byte>, v: seq<byte>, e: byte, p: seq<byte>)
    requires |h| == 3 && |b| == 8 && |l| == 2 && |v| == 2 && |p| == 2
    ensures var c, at := h + i + b + l + v + [e] + p, 3 + |i|;
            && |c| == 18 + |i| && c[..3] == h && c[3..at] == i && c[at..at + 8] == b && c[at + 8..at + 10] == l
            && c[at + 10..at + 12] == v && c[at + 12] == e && c[at + 13..at + 15] == p
  {
  }

  lemma LegacyReads(opcode: u16, link: Link, voice: u16)
    requires Proper(opcode, link)
    ensures var c := Legacy(opcode, link, voice);
            && |c| == 18 + |link.id| && Opcode(c) == opcode && IdLength(c) == |link.id|
            && LegacyLink(c) == link && VoiceSetting(c) == voice
  {
    var h := Put16(opcode) + [15 + |link.id|];
    LegacySections(h, link.id, link.bandwidths, link.latency, Put16(voice), link.effort, link.packetTypes);
    var c, at := Legacy(opcode, link, voice), 3 + |link.id|;
    assert c[0] == c[..3][0] && c[1] == c[..3][1] && c[2] == c[..3][2];
    assert c[at + 10] == c[at + 10..at + 12][0] && c[at + 11] == c[at + 10..at + 12][1];
  }

  lemma LegacyParts(c: seq<byte>, at: nat)
    requires 3 <= at && |c| == at + 15
    ensures c == c[..3] + c[3..at] + c[at..at + 8] + c[at + 8..at + 10] + c[at + 10..at + 12] + [c[at + 12]]
                 + c[at + 13..at + 15]
  {
  }

  /** Whatever the machine takes for a legacy command is one, byte for byte. */
  lemma TakenIsLegacy(c: seq<byte>)
    requires IdLength(c) > 0
    ensures Proper(Opcode(c), LegacyLink(c))
    ensures c == Legacy(Opcode(c), LegacyLink(c), VoiceSetting(c))
  {
    var at := 3 + IdLength(c);
    LegacyParts(c, at);
    assert c[..3] == Put16(Opcode(c)) + [15 + IdLength(c)];
    assert c[at + 10..at + 12] == Put16(VoiceSetting(c));
  }

  /**
   Which commands are rewritten: exactly the legacy Setup and Accept commands, of their full length, whose
   voice setting can be carried, if there is room for the Enhanced form.
   */
  lemma RewrittenExactly(r: Route, c: seq<byte>, capacity: nat)
    ensures (exists opcode, link, voice :: Proper(opcode, link) && c == Legacy(opcode, link, voice)
                                           && Carriable(voice) && capacity >= 60 + |link.id|)
            <==> Rewrite(r, c, capacity).out.Some?
    ensures Rewrite(r, c, capacity).out.None? ==> Rewrite(r, c, capacity).next == r
  {
    if Rewrite(r, c, capacity).out.Some? {
      TakenIsLegacy(c);
      assert Carriable(VoiceSetting(c)) && capacity >= 60 + |LegacyLink(c).id|;
    }
    forall opcode, link, voice | Proper(opcode, link) && c == Legacy(opcode, link, voice)
                                 && Carriable(voice) && capacity >= 60 + |link.id|
      ensures Rewrite(r, c, capacity).out.Some?
    {
      LegacyReads(opcode, link, voice);
    }
  }

  lemma RewriteReads(r: Route, c: seq<byte>, capacity: nat)
    requires Rewrite(r, c, capacity).out.Some?
    ensures var out, n := Rewrite(r, c, capacity).out.value, IdLength(c);
            && |out| == 60 + n && out[2] as nat == |out| - 3
            && Opcode(out) == EnhancedOpcode(Opcode(c))
            && EnhancedLink(out, n) == LegacyLink(c)
            && (CodingOf(VoiceSetting(c)).value == Transparent ==> Codes(out, n, TRANSPARENT_AIR, TRANSPARENT_HOST))
            && (CodingOf(VoiceSetting(c)).value == Cvsd ==> Codes(out, n, CVSD_AIR, LINEAR_HOST))
  {
    var coding := CodingOf(VoiceSetting(c)).value;
    LegacyShape(c);
    EnhancedReadsBack(Opcode(c), LegacyLink(c), coding);
    HeadReads(Enhanced(Opcode(c), LegacyLink(c), coding), Opcode(c));
    EnhancedCodes(Opcode(c), LegacyLink(c), coding);
  }

  /**
   Rewriting keeps the link and fits the coding to it: the Enhanced form of a legacy command is as long as
   its length byte says, names the same link with the same bandwidths, latency, packet types and effort,
   and codes voice as the voice setting asks, over the HCI data path.
   */
  lemma RewriteKeepsLink(r: Route, opcode: u16, link: Link, voice: u16, capacity: nat)
    requires Proper(opcode, link) && Carriable(voice) && capacity >= 60 + |link.id|
    ensures var w, n := Rewrite(r, Legacy(opcode, link, voice), capacity), |link.id|;
            && w.out.Some? && w.next.rewritten == r.rewritten + 1
            && var out := w.out.value;
            && |out| == 60 + n && out[2] as nat == |out| - 3
            && Opcode(out) == (if opcode == 0x0428 then 0x043D else 0x043E)
            && EnhancedLink(out, n) == link
            && (voice % 4 == 3 ==> Codes(out, n, TRANSPARENT_AIR, TRANSPARENT_HOST))
            && (voice % 4 == 0 ==> Codes(out, n, CVSD_AIR, LINEAR_HOST))
  {
    LegacyReads(opcode, link, voice);
    RewriteReads(r, Legacy(opcode, link, voice), capacity);
  }

  /** An answer is changed exactly when one of the machine's own commands may still be waiting for it. */
  lemma ShownOpcode(r: Route, e: seq<byte>)
    ensures var s := Restore(r, e);
            && OpcodeAt(s.event) == OpcodeAt(e) && |s.event| == |e|
            && (forall k :: 0 <= k < |e| && (!s.changed || k < OpcodeAt(e) || k >= OpcodeAt(e) + 2)
                            ==> s.event[k] == e[k])
            && AnsweredOpcode(e) == (if |e| < 6 then None
                                     else if e[0] == 0x0F then Some(Le16(e[4], e[5]))
                                     else if e[0] == 0x0E then Some(Le16(e[3], e[4]))
                                     else None)
            && (AnsweredOpcode(e) == Some(ENHANCED_SETUP) ==>
                  (AnsweredOpcode(s.event) == Some(SETUP) <==> r.setup != 0))
            && (AnsweredOpcode(e) == Some(ENHANCED_ACCEPT) ==>
                  (AnsweredOpcode(s.event) == Some(ACCEPT) <==> r.accept != 0))
            && (AnsweredOpcode(e) != Some(ENHANCED_SETUP) && AnsweredOpcode(e) != Some(ENHANCED_ACCEPT)
                ==> s == Restored(r, e, false))
  {
  }
}
