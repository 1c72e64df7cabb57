/**
 The voice-route proxy as the driver runs it: the output written through an advancing position, the event
 edited in place (src/common/sco_route.c).
 */
module ScoRoute {
  import opened Bytes
  import opened Tlv
  import opened ScoRouteSpec

  method PutBytes(out: array<byte>, p: nat, bytes: seq<byte>) returns (q: nat)
    requires p + |bytes| <= out.Length
    modifies out
    ensures q == p + |bytes| && out[..q] == old(out[..p]) + bytes
  {
    forall k | 0 <= k < |bytes| {
      out[p + k] := bytes[k];
    }
    q := p + |bytes|;
  }

  /** Air coding and frame size for both directions, then the host's bandwidths. */
  method PutAir(out: array<byte>, p: nat, coding: Coding) returns (q: nat)
    requires p + 22 <= out.Length
    modifies out
    ensures q == p + 22 && out[..q] == old(out[..p]) + AirPart(coding)
  {
    var air, rate := if coding == Transparent then 3 else 2, if coding == Transparent then 8000 else 16000;
    var f, s, b := CodingFormat(air), Put16(60), Put32(rate);
    q := PutBytes(out, p, f + f);
    q := PutBytes(out, q, s + s);
    q := PutBytes(out, q, b + b);
    assert AirPart(coding) == (f + f) + (s + s) + (b + b);
  }

  /** Host coding and sample size for both directions, then the HCI data paths among the fixed bytes. */
  method PutHost(out: array<byte>, p: nat, coding: Coding) returns (q: nat)
    requires p + 22 <= out.Length
    modifies out
    ensures q == p + 22 && out[..q] == old(out[..p]) + HostPart(coding)
  {
    var host, units := if coding == Transparent then 3 else 4, if coding == Transparent then 1 else 16;
    var f, s := CodingFormat(host), Put16(16);
    q := PutBytes(out, p, f + f);
    q := PutBytes(out, q, s + s);
    q := PutBytes(out, q, [2, 2, 0, 0, 0, 0, units, units]);
    assert HostPart(coding) == (f + f) + (s + s) + [2, 2, 0, 0, 0, 0, units, units];
  }

  class Proxy {
    var setupPending: byte
    var acceptPending: byte
    var rewritten: nat
    var restored: nat

    ghost function Model(): Route
      reads this
    {
      Route(setupPending, acceptPending, rewritten, restored)
    }

    constructor ()
      ensures Model() == IDLE
    {
      setupPending, acceptPending, rewritten, restored := 0, 0, 0, 0;
    }

    method Reset()
      modifies this
      ensures Model() == IDLE
    {
      setupPending, acceptPending, rewritten, restored := 0, 0, 0, 0;
    }

    /** Opcode, length, link name and bandwidths. */
    method PutHead(out: array<byte>, opcode: u16, link: Link) returns (p: nat)
      requires 11 + |link.id| <= out.Length && |link.bandwidths| == 8
      modifies out
      ensures p == 11 + |link.id|
      ensures out[..p] == Put16(EnhancedOpcode(opcode)) + [Params(opcode)] + link.id + link.bandwidths
    {
      p := PutBytes(out, 0, Put16(EnhancedOpcode(opcode)));
      p := PutBytes(out, p, [Params(opcode)]);
      p := PutBytes(out, p, link.id);
      p := PutBytes(out, p, link.bandwidths);
    }

    method PutTail(out: array<byte>, at: nat, link: Link) returns (p: nat)
      requires at + 5 <= out.Length && |link.latency| == 2 && |link.packetTypes| == 2
      modifies out
      ensures p == at + 5
      ensures out[..p] == old(out[..at]) + link.latency + link.packetTypes + [link.effort]
    {
      p := PutBytes(out, at, link.latency);
      p := PutBytes(out, p, link.packetTypes);
      p := PutBytes(out, p, [link.effort]);
    }

    method WriteEnhanced(opcode: u16, link: Link, coding: Coding, out: array<byte>) returns (p: nat)
      requires Shaped(link, if opcode == SETUP then 2 else 6) && out.Length >= 3 + Params(opcode) as nat
      modifies out
      ensures p == 3 + Params(opcode) as nat && out[..p] == Enhanced(opcode, link, coding)
    {
      p := PutHead(out, opcode, link);
      p := PutAir(out, p, coding);
      p := PutHost(out, p, coding);
      p := PutTail(out, p, link);
    }

    /** Writes the Enhanced form and returns its length, or returns 0 and the command goes out unchanged. */
    method RewriteCommand(c: seq<byte>, out: array<byte>, capacity: nat) returns (n: nat)
      requires capacity <= out.Length
      modifies this, out
      ensures var r := Rewrite(old(Model()), c, capacity);
              && Model() == r.next
              && (n == 0 <==> r.out.None?)
              && (n > 0 ==> n <= out.Length && out[..n] == r.out.value)
    {
      if IdLength(c) == 0 || capacity < 3 + Params(Opcode(c)) as nat {
        return 0;
      }
      var coding := CodingOf(VoiceSetting(c));
      if coding.None? {
        return 0;
      }
      n := WriteEnhanced(Opcode(c), LegacyLink(c), coding.value, out);
      if Opcode(c) == SETUP {
        if setupPending < 0xFF {
          setupPending := setupPending + 1;
        }
      } else if acceptPending < 0xFF {
        acceptPending := acceptPending + 1;
      }
      rewritten := rewritten + 1;
    }

    /** Puts the legacy opcode back into the answer of a rewritten command. */
    method RestoreEvent(event: array<byte>) returns (changed: bool)
      modifies this, event
      ensures Restored(Model(), event[..], changed) == Restore(old(Model()), old(event[..]))
    {
      var at := OpcodeAt(event[..]);
      if at == 0 {
        return false;
      }
      var op := Le16(event[at], event[at + 1]);
      if op == ENHANCED_SETUP && setupPending != 0 {
        setupPending := setupPending - 1;
        op := SETUP;
      } else if op == ENHANCED_ACCEPT && acceptPending != 0 {
        acceptPending := acceptPending - 1;
        op := ACCEPT;
      } else {
        return false;
      }
      event[at] := op % 0x100;
      event[at + 1] := op / 0x100;
      restored := restored + 1;
      assert event[..] == WithOpcode(old(event[..]), op);
      return true;
    }
  }
}
