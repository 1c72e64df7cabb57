/**
 The controller-to-host voice path on values: controller SCO packets of any size are re-cut into the
 packet geometry of the selected USB alternate setting (src/common/sco_usb.c).
 */
module ScoInSpec {
  import opened Bytes
  import opened ScoPacket

  const FIFO_BYTES := 512

  datatype In = In(
    fifo: seq<byte>, haveHandle: bool, field: u16,
    frame: seq<byte>, offset: nat,
    sources: nat, rejected: nat, framed: nat, dropped: nat, lastLength: nat)

  /** What happened to voice bytes: taken from the controller, thrown away, or framed for the host. */
  datatype Event =
    | Took(field: u16, payload: seq<byte>)
    | Flushed(handle: u16, payload: seq<byte>)
    | Framed(field: u16, payload: seq<byte>)

  datatype Step = Step(next: In, events: seq<Event>)

  /** sources left over after a fill, and the bytes of one isochronous packet. */
  datatype Filled = Filled(next: In, data: seq<byte>, rest: seq<seq<byte>>, events: seq<Event>)

  const EMPTY := In([], false, 0, [], 0, 0, 0, 0, 0, 0)

  function PayloadSize(maxPacket: nat): (n: nat)
    ensures n <= 255
  {
    if maxPacket < 4 then 0
    else if maxPacket >= MAX_ISO then Min(maxPacket - HEADER, 255)
    else 3 * maxPacket - HEADER
  }

  function HandlePart(field: u16): (h: u16)
    ensures h < 0x1000
  {
    field % 0x1000
  }

  function Accept(s: In, p: seq<byte>): Step {
    if !WellFormed(p) then Step(s.(rejected := s.rejected + 1), [])
    else
      var field := Le16(p[0], p[1]);
      var other := s.haveHandle && HandlePart(field) != HandlePart(s.field);
      Step(s.(fifo := (if other then [] else s.fifo) + p[HEADER..],
              dropped := s.dropped + if other then |s.fifo| else 0,
              haveHandle := true, field := field,
              sources := s.sources + 1, lastLength := p[2]),
           (if other then [Flushed(HandlePart(s.field), s.fifo)] else []) + [Took(field, p[HEADER..])])
  }

  datatype Pulled = Pulled(next: In, rest: seq<seq<byte>>, events: seq<Event>)

  /** Pulls controller packets until one payload is waiting or none is left. */
  function Gather(s: In, payload: nat, source: seq<seq<byte>>): (g: Pulled)
    ensures g.next.frame == s.frame && g.next.offset == s.offset
    ensures |g.rest| <= |source|
    decreases |source|
  {
    if |s.fifo| >= payload || source == [] then Pulled(s, source, [])
    else
      var a := Accept(s, source[0]);
      var r := Gather(a.next, payload, source[1..]);
      Pulled(r.next, r.rest, a.events + r.events)
  }

  function FrameBytes(field: u16, payload: seq<byte>): (f: seq<byte>)
    requires |payload| <= 255
  {
    [field % 0x100, field / 0x100, |payload|] + payload
  }

  /** Starts the next packet for the host when a whole payload is waiting. */
  function NextFrame(s: In, payload: nat): Step
    requires payload <= 255
  {
    if payload == 0 || |s.fifo| < payload then Step(s, [])
    else
      Step(s.(fifo := s.fifo[payload..], frame := FrameBytes(s.field, s.fifo[..payload]),
              framed := s.framed + 1),
           [Framed(s.field, s.fifo[..payload])])
  }

  /** Hands out the next bytes of the packet being cut, at most one isochronous packet of them. */
  function Cut(s: In, maxPacket: nat, capacity: nat, rest: seq<seq<byte>>, events: seq<Event>): (f: Filled)
    requires s.offset <= |s.frame|
    ensures f.next.offset <= |f.next.frame| && f.rest == rest
  {
    var n := Min(Min(|s.frame| - s.offset, maxPacket), capacity);
    Filled(s.(offset := s.offset + n), s.frame[s.offset..s.offset + n], rest, events)
  }

  function Fill(s: In, maxPacket: nat, capacity: nat, source: seq<seq<byte>>): (f: Filled)
    requires s.offset <= |s.frame|
    ensures f.next.offset <= |f.next.frame|
    ensures |f.rest| <= |source|
  {
    if s.offset < |s.frame| then Cut(s, maxPacket, capacity, source, [])
    else
      var payload := PayloadSize(maxPacket);
      var idle := s.(frame := [], offset := 0);
      if payload == 0 then Filled(idle, [], source, [])
      else
        var g := Gather(idle, payload, source);
        var f := NextFrame(g.next, payload);
        Cut(f.next, maxPacket, capacity, g.rest, g.events + f.events)
  }

  /* ---------------------------------------------------------------- the ledger of a run */

  /** One isochronous packet asked for, with the controller packets a pull would find. */
  datatype Request = Request(maxPacket: nat, capacity: nat, source: seq<seq<byte>>)

  /** used lists the controller packets the run consumed, sent the isochronous packets it filled. */
  datatype Run = Run(last: In, used: seq<seq<byte>>, sent: seq<seq<byte>>, events: seq<Event>)

  function Used(r: Request, f: Filled): seq<seq<byte>>
    requires |f.rest| <= |r.source|
  {
    r.source[..|r.source| - |f.rest|]
  }

  function RunAll(s: In, rs: seq<Request>): (r: Run)
    requires s.offset <= |s.frame|
    ensures |r.sent| == |rs|
    decreases |rs|
  {
    if rs == [] then Run(s, [], [], [])
    else
      var f := Fill(s, rs[0].maxPacket, rs[0].capacity, rs[0].source);
      var r := RunAll(f.next, rs[1..]);
      Run(r.last, Used(rs[0], f) + r.used, [f.data] + r.sent, f.events + r.events)
  }

  /** A voice byte together with the link it belongs to. */
  datatype Voice = Voice(b: byte, handle: u16)

  function Tag(handle: u16, bytes: seq<byte>): (t: seq<Voice>)
    ensures |t| == |bytes|
    ensures forall i :: 0 <= i < |bytes| ==> t[i] == Voice(bytes[i], handle)
  {
    seq(|bytes|, i requires 0 <= i < |bytes| => Voice(bytes[i], handle))
  }

  /** The voice of controller packets, malformed ones carrying none. */
  function Arrived(packets: seq<seq<byte>>): seq<Voice> {
    if packets == [] then [] else Carried(packets[0]) + Arrived(packets[1..])
  }

  function Carried(p: seq<byte>): seq<Voice> {
    if WellFormed(p) then Tag(Handle12(p[0], p[1]), p[HEADER..]) else []
  }

  function TakenBy(e: Event): seq<Voice> {
    if e.Took? then Tag(HandlePart(e.field), e.payload) else []
  }

  function GivenBy(e: Event): seq<Voice> {
    match e
    case Took(_, _) => []
    case Flushed(handle, payload) => Tag(handle, payload)
    case Framed(field, payload) => Tag(HandlePart(field), payload)
  }

  function HostBytes(e: Event): seq<byte> {
    if e.Framed? && |e.payload| <= 255 then FrameBytes(e.field, e.payload) else []
  }

  function TakenIn(es: seq<Event>): seq<Voice> {
    if es == [] then [] else TakenBy(es[0]) + TakenIn(es[1..])
  }

  function GivenOut(es: seq<Event>): seq<Voice> {
    if es == [] then [] else GivenBy(es[0]) + GivenOut(es[1..])
  }

  /** The packets built for the host, header and payload, one after another. */
  function HostStream(es: seq<Event>): seq<byte> {
    if es == [] then [] else HostBytes(es[0]) + HostStream(es[1..])
  }

  function FlushedBytes(es: seq<Event>): nat {
    if es == [] then 0
    else (if es[0].Flushed? then |es[0].payload| else 0) + FlushedBytes(es[1..])
  }

  function Waiting(s: In): seq<Voice> {
    Tag(HandlePart(s.field), s.fifo)
  }

  /** What every step keeps: no voice byte is lost, duplicated, reordered or moved to another link. */
  ghost predicate Balanced(s: In, es: seq<Event>, s': In) {
    && Waiting(s) + TakenIn(es) == GivenOut(es) + Waiting(s')
    && s'.dropped == s.dropped + FlushedBytes(es)
  }

  predicate Good(s: In) {
    s.offset <= |s.frame| && |s.fifo| < 510 && (s.fifo != [] ==> s.haveHandle)
  }

  lemma {:induction false} LedgerAppend(a: seq<Event>, b: seq<Event>)
    ensures TakenIn(a + b) == TakenIn(a) + TakenIn(b)
    ensures GivenOut(a + b) == GivenOut(a) + GivenOut(b)
    ensures FlushedBytes(a + b) == FlushedBytes(a) + FlushedBytes(b)
    ensures HostStream(a + b) == HostStream(a) + HostStream(b)
    decreases |a|
  {
    if a == [] {
      assert a + b == b;
    } else {
      assert (a + b)[0] == a[0] && (a + b)[1..] == a[1..] + b;
      LedgerAppend(a[1..], b);
      Assoc(TakenBy(a[0]), TakenIn(a[1..]), TakenIn(b));
      Assoc(GivenBy(a[0]), GivenOut(a[1..]), GivenOut(b));
      Assoc(HostBytes(a[0]), HostStream(a[1..]), HostStream(b));
    }
  }

  lemma LedgerOne(e: Event)
    ensures TakenIn([e]) == TakenBy(e) && GivenOut([e]) == GivenBy(e) && HostStream([e]) == HostBytes(e)
    ensures FlushedBytes([e]) == if e.Flushed? then |e.payload| else 0
  {
  }

  lemma BalancedAppend(s: In, a: seq<Event>, t: In, b: seq<Event>, u: In)
    requires Balanced(s, a, t) && Balanced(t, b, u)
    ensures Balanced(s, a + b, u)
  {
    LedgerAppend(a, b);
    Assoc(Waiting(s), TakenIn(a), TakenIn(b));
    Assoc(GivenOut(a), Waiting(t), TakenIn(b));
    Assoc(GivenOut(a), GivenOut(b), Waiting(u));
  }

  lemma AcceptBalanced(s: In, p: seq<byte>)
    requires s.fifo != [] ==> s.haveHandle
    ensures var a := Accept(s, p);
            && Balanced(s, a.events, a.next)
            && HostStream(a.events) == []
            && (a.next.fifo != [] ==> a.next.haveHandle)
            && |a.next.fifo| <= |s.fifo| + 255
  {
    var a := Accept(s, p);
    if !WellFormed(p) {
      assert Waiting(s) + [] == [] + Waiting(s);
    } else {
      var took := Took(Le16(p[0], p[1]), p[HEADER..]);
      LedgerOne(took);
      if s.haveHandle && HandlePart(took.field) != HandlePart(s.field) {
        var flushed := Flushed(HandlePart(s.field), s.fifo);
        LedgerOne(flushed);
        LedgerAppend([flushed], [took]);
        assert a.next.fifo == took.payload;
      } else {
        assert a.events == [took];
        assert Waiting(a.next) == Waiting(s) + TakenBy(took);
      }
    }
  }

  lemma {:induction false} ArrivedAppend(a: seq<seq<byte>>, b: seq<seq<byte>>)
    ensures Arrived(a + b) == Arrived(a) + Arrived(b)
    decreases |a|
  {
    if a == [] {
      assert a + b == b;
    } else {
      assert (a + b)[0] == a[0] && (a + b)[1..] == a[1..] + b;
      ArrivedAppend(a[1..], b);
      Assoc(Carried(a[0]), Arrived(a[1..]), Arrived(b));
    }
  }

  lemma AcceptTakes(s: In, p: seq<byte>)
    ensures TakenIn(Accept(s, p).events) == Carried(p)
  {
    if WellFormed(p) {
      var took := Took(Le16(p[0], p[1]), p[HEADER..]);
      LedgerOne(took);
      if Accept(s, p).events == [took] {
      } else {
        var flushed := Flushed(HandlePart(s.field), s.fifo);
        LedgerOne(flushed);
        LedgerAppend([flushed], [took]);
      }
    }
  }

  lemma ArrivedFirst(source: seq<seq<byte>>, n: nat)
    requires 0 < n <= |source|
    ensures Arrived(source[..n]) == Carried(source[0]) + Arrived(source[1..][..n - 1])
  {
    assert source[..n][1..] == source[1..][..n - 1];
  }

  lemma {:induction false} GatherTakes(s: In, payload: nat, source: seq<seq<byte>>)
    ensures var g := Gather(s, payload, source);
            TakenIn(g.events) == Arrived(source[..|source| - |g.rest|])
    decreases |source|
  {
    if |s.fifo| < payload && source != [] {
      var a := Accept(s, source[0]);
      var r := Gather(a.next, payload, source[1..]);
      AcceptTakes(s, source[0]);
      GatherTakes(a.next, payload, source[1..]);
      LedgerAppend(a.events, r.events);
      ArrivedFirst(source, |source| - |r.rest|);
      assert Gather(s, payload, source) == Pulled(r.next, r.rest, a.events + r.events);
    } else {
      assert source[..0] == [];
    }
  }

  lemma FramingTakesNothing(s: In, payload: nat)
    requires payload <= 255
    ensures TakenIn(NextFrame(s, payload).events) == []
  {
    var n := NextFrame(s, payload);
    if n.events != [] {
      LedgerOne(n.events[0]);
    }
  }

  lemma FillTakes(s: In, maxPacket: nat, capacity: nat, source: seq<seq<byte>>)
    requires s.offset <= |s.frame|
    ensures var f := Fill(s, maxPacket, capacity, source);
            TakenIn(f.events) == Arrived(source[..|source| - |f.rest|])
  {
    if s.offset >= |s.frame| && PayloadSize(maxPacket) > 0 {
      var payload := PayloadSize(maxPacket);
      var idle := s.(frame := [], offset := 0);
      var g := Gather(idle, payload, source);
      GatherTakes(idle, payload, source);
      FramingTakesNothing(g.next, payload);
      LedgerAppend(g.events, NextFrame(g.next, payload).events);
      assert TakenIn(g.events) + [] == TakenIn(g.events);
    }
  }

  lemma {:induction false} GatherBalanced(s: In, payload: nat, source: seq<seq<byte>>)
    requires s.fifo != [] ==> s.haveHandle
    requires payload <= 255 && |s.fifo| < 510
    ensures var g := Gather(s, payload, source);
            && Balanced(s, g.events, g.next)
            && HostStream(g.events) == []
            && (g.next.fifo != [] ==> g.next.haveHandle)
            && |g.next.fifo| < 510
            && (|g.next.fifo| >= payload || g.rest == [])
    decreases |source|
  {
    if |s.fifo| >= payload || source == [] {
      assert Waiting(s) + [] == [] + Waiting(s);
    } else {
      var a := Accept(s, source[0]);
      AcceptBalanced(s, source[0]);
      GatherBalanced(a.next, payload, source[1..]);
      var r := Gather(a.next, payload, source[1..]);
      BalancedAppend(s, a.events, a.next, r.events, r.next);
      LedgerAppend(a.events, r.events);
    }
  }

  lemma TagSplit(handle: u16, bytes: seq<byte>, n: nat)
    requires n <= |bytes|
    ensures Tag(handle, bytes) == Tag(handle, bytes[..n]) + Tag(handle, bytes[n..])
  {
  }

  lemma OneGiven(s: In, e: Event, t: In, given: seq<Voice>)
    requires TakenBy(e) == [] && GivenBy(e) == given && !e.Flushed?
    requires Waiting(s) == given + Waiting(t) && t.dropped == s.dropped
    ensures Balanced(s, [e], t)
  {
    LedgerOne(e);
    assert Waiting(s) + [] == Waiting(s);
  }

  lemma FrameBalanced(s: In, payload: nat)
    requires 0 < payload <= |s.fifo| && payload <= 255
    ensures Balanced(s, NextFrame(s, payload).events, NextFrame(s, payload).next)
  {
    var f, h := NextFrame(s, payload), HandlePart(s.field);
    TagSplit(h, s.fifo, payload);
    OneGiven(s, f.events[0], f.next, Tag(h, s.fifo[..payload]));
  }

  lemma NextFrameBalanced(s: In, payload: nat)
    requires payload <= 255
    ensures var f := NextFrame(s, payload);
            && Balanced(s, f.events, f.next)
            && HostStream(f.events) == (if f.events == [] then [] else f.next.frame)
            && (f.events == [] ==> f.next.frame == s.frame)
            && f.next.offset == s.offset && f.next.haveHandle == s.haveHandle
            && |f.next.fifo| <= |s.fifo|
  {
    if payload == 0 || |s.fifo| < payload {
      assert Waiting(s) + [] == [] + Waiting(s);
    } else {
      FrameBalanced(s, payload);
      LedgerOne(NextFrame(s, payload).events[0]);
    }
  }

  /** Bytes of the packet being cut that the host has not had yet. */
  function Unsent(s: In): seq<byte>
    requires s.offset <= |s.frame|
  {
    s.frame[s.offset..]
  }

  /** One isochronous packet: voice balances, and the host stream continues without a gap. */
  lemma FillBalanced(s: In, maxPacket: nat, capacity: nat, source: seq<seq<byte>>)
    requires Good(s)
    ensures var f := Fill(s, maxPacket, capacity, source);
            && Good(f.next)
            && Balanced(s, f.events, f.next)
            && Unsent(s) + HostStream(f.events) == f.data + Unsent(f.next)
            && |f.data| <= maxPacket && |f.data| <= capacity
  {
    if s.offset < |s.frame| || PayloadSize(maxPacket) == 0 {
      var f := Fill(s, maxPacket, capacity, source);
      assert f.events == [];
      assert Waiting(s) + [] == [] + Waiting(s);
      assert Unsent(s) + [] == f.data + Unsent(f.next);
    } else {
      assert Unsent(s) == [];
      FreshFillBalanced(s, maxPacket, capacity, source);
    }
  }

  lemma FreshFillBalanced(s: In, maxPacket: nat, capacity: nat, source: seq<seq<byte>>)
    requires Good(s) && s.offset >= |s.frame| && PayloadSize(maxPacket) > 0
    ensures var f := Fill(s, maxPacket, capacity, source);
            && Good(f.next)
            && Balanced(s, f.events, f.next)
            && HostStream(f.events) == f.next.frame
            && f.next.frame == f.data + Unsent(f.next)
            && |f.data| <= maxPacket && |f.data| <= capacity
  {
    var payload := PayloadSize(maxPacket);
    var idle := s.(frame := [], offset := 0);
    var g := Gather(idle, payload, source);
    var n := NextFrame(g.next, payload);
    GatherFrameBalanced(idle, payload, source);
    CutTakesFront(n.next, maxPacket, capacity, g.rest, g.events + n.events);
    SameVoice(idle, s, g.events + n.events, n.next, Fill(s, maxPacket, capacity, source).next);
  }

  lemma CutTakesFront(s: In, maxPacket: nat, capacity: nat, rest: seq<seq<byte>>, events: seq<Event>)
    requires Good(s) && s.offset == 0
    ensures var f := Cut(s, maxPacket, capacity, rest, events);
            && Good(f.next) && f.events == events && f.next == s.(offset := f.next.offset)
            && f.next.frame == f.data + Unsent(f.next) && |f.data| <= maxPacket && |f.data| <= capacity
  {
  }

  /** The frame being cut plays no part in the voice ledger. */
  lemma SameVoice(s: In, t: In, es: seq<Event>, u: In, v: In)
    requires Balanced(s, es, u)
    requires t.fifo == s.fifo && t.field == s.field && t.dropped == s.dropped
    requires v.fifo == u.fifo && v.field == u.field && v.dropped == u.dropped
    ensures Balanced(t, es, v)
  {
  }

  lemma GatherFrameBalanced(s: In, payload: nat, source: seq<seq<byte>>)
    requires Good(s) && payload <= 255 && s.frame == []
    ensures var g := Gather(s, payload, source);
            var n := NextFrame(g.next, payload);
            && Good(n.next) && n.next.offset == s.offset
            && Balanced(s, g.events + n.events, n.next)
            && HostStream(g.events + n.events) == n.next.frame
  {
    var g := Gather(s, payload, source);
    GatherBalanced(s, payload, source);
    var n := NextFrame(g.next, payload);
    NextFrameBalanced(g.next, payload);
    BalancedAppend(s, g.events, g.next, n.events, n.next);
    LedgerAppend(g.events, n.events);
    assert [] + HostStream(n.events) == HostStream(n.events);
  }

  /* ---------------------------------------------------------------- what the host reads */

  /** Cuts a byte stream into voice packets by their length bytes. */
  function PacketsOf(stream: seq<byte>): seq<seq<byte>>
    decreases |stream|
  {
    if |stream| < HEADER || |stream| < HEADER + stream[2] then []
    else [stream[..HEADER + stream[2]]] + PacketsOf(stream[HEADER + stream[2]..])
  }

  function FramedVoice(es: seq<Event>): seq<Voice> {
    if es == [] then []
    else (if es[0].Framed? then Tag(HandlePart(es[0].field), es[0].payload) else []) + FramedVoice(es[1..])
  }

  function FramedField(e: Event): seq<u16> {
    if e.Framed? then [e.field] else []
  }

  function TakenField(e: Event): seq<u16> {
    if e.Took? then [e.field] else []
  }

  function FieldOf(p: seq<byte>): seq<u16> {
    if WellFormed(p) then [Le16(p[0], p[1])] else []
  }

  /** The header fields, flags included, of the packets built for the host. */
  function FramedFields(es: seq<Event>): seq<u16> {
    if es == [] then [] else FramedField(es[0]) + FramedFields(es[1..])
  }

  function TakenFields(es: seq<Event>): seq<u16> {
    if es == [] then [] else TakenField(es[0]) + TakenFields(es[1..])
  }

  /** The header fields of the well-formed packets of a list. */
  function FieldsOf(packets: seq<seq<byte>>): seq<u16> {
    if packets == [] then [] else FieldOf(packets[0]) + FieldsOf(packets[1..])
  }

  /** Each framed packet opens with the field of the last packet taken before it, f to begin with. */
  predicate Follows(f: u16, es: seq<Event>)
    decreases |es|
  {
    || es == []
    || (es[0].Took? && Follows(es[0].field, es[1..]))
    || (es[0].Flushed? && Follows(f, es[1..]))
    || (es[0].Framed? && es[0].field == f && 0 < |es[0].payload| <= 255 && Follows(f, es[1..]))
  }

  function FieldAfter(f: u16, es: seq<Event>): u16
    decreases |es|
  {
    if es == [] then f else FieldAfter(if es[0].Took? then es[0].field else f, es[1..])
  }

  lemma FrameReads(field: u16, payload: seq<byte>)
    requires |payload| <= 255
    ensures var f := FrameBytes(field, payload);
            && WellFormed(f) && Le16(f[0], f[1]) == field
            && Carried(f) == Tag(HandlePart(field), payload)
  {
  }

  lemma FirstPacket(f: seq<byte>, rest: seq<byte>)
    requires WellFormed(f)
    ensures PacketsOf(f + rest) == [f] + PacketsOf(rest)
  {
    assert (f + rest)[..|f|] == f && (f + rest)[|f|..] == rest;
  }

  lemma OneArrives(f: seq<byte>, rest: seq<seq<byte>>)
    ensures Arrived([f] + rest) == Carried(f) + Arrived(rest)
    ensures WellFormed(f) ==> FieldsOf([f] + rest) == [Le16(f[0], f[1])] + FieldsOf(rest)
  {
    assert ([f] + rest)[1..] == rest;
  }

  /** The host, cutting its stream by the length bytes, reads the framed voice under its own handles. */
  lemma {:induction false} HostReads(f: u16, es: seq<Event>)
    requires Follows(f, es)
    ensures Arrived(PacketsOf(HostStream(es))) == FramedVoice(es)
    ensures FieldsOf(PacketsOf(HostStream(es))) == FramedFields(es)
    decreases |es|
  {
    if es != [] {
      HostReads(if es[0].Took? then es[0].field else f, es[1..]);
      if es[0].Framed? {
        FrameReads(es[0].field, es[0].payload);
        FirstPacket(HostBytes(es[0]), HostStream(es[1..]));
        OneArrives(HostBytes(es[0]), PacketsOf(HostStream(es[1..])));
      } else {
        assert HostStream(es) == [] + HostStream(es[1..]) == HostStream(es[1..]);
      }
    }
  }

  /** The headers of a stretch: fields taken from the source, put on the packets built, and left standing. */
  ghost predicate Headed(s: In, source: seq<seq<byte>>, es: seq<Event>, t: In) {
    && TakenFields(es) == FieldsOf(source)
    && Follows(s.field, es)
    && t.field == FieldAfter(s.field, es)
    && t.framed == s.framed + |FramedFields(es)|
    && t.sources == s.sources + |FieldsOf(source)|
    && t.rejected == s.rejected + |source| - |FieldsOf(source)|
  }

  lemma {:induction false} FollowsAppend(f: u16, a: seq<Event>, b: seq<Event>)
    requires Follows(f, a) && Follows(FieldAfter(f, a), b)
    ensures Follows(f, a + b) && FieldAfter(f, a + b) == FieldAfter(FieldAfter(f, a), b)
    decreases |a|
  {
    if a == [] {
      assert a + b == b;
    } else {
      assert (a + b)[0] == a[0] && (a + b)[1..] == a[1..] + b;
      FollowsAppend(if a[0].Took? then a[0].field else f, a[1..], b);
    }
  }

  lemma {:induction false} FieldsAppend(a: seq<Event>, b: seq<Event>)
    ensures TakenFields(a + b) == TakenFields(a) + TakenFields(b)
    ensures FramedFields(a + b) == FramedFields(a) + FramedFields(b)
    decreases |a|
  {
    if a == [] {
      assert a + b == b;
    } else {
      assert (a + b)[0] == a[0] && (a + b)[1..] == a[1..] + b;
      FieldsAppend(a[1..], b);
      Assoc(TakenField(a[0]), TakenFields(a[1..]), TakenFields(b));
      Assoc(FramedField(a[0]), FramedFields(a[1..]), FramedFields(b));
    }
  }

  lemma {:induction false} FieldsOfAppend(a: seq<seq<byte>>, b: seq<seq<byte>>)
    ensures FieldsOf(a + b) == FieldsOf(a) + FieldsOf(b)
    decreases |a|
  {
    if a == [] {
      assert a + b == b;
    } else {
      assert (a + b)[0] == a[0] && (a + b)[1..] == a[1..] + b;
      FieldsOfAppend(a[1..], b);
      Assoc(FieldOf(a[0]), FieldsOf(a[1..]), FieldsOf(b));
    }
  }

  lemma HeadedAppend(s: In, p: seq<seq<byte>>, a: seq<Event>, t: In, q: seq<seq<byte>>, b: seq<Event>, u: In)
    requires Headed(s, p, a, t) && Headed(t, q, b, u)
    ensures Headed(s, p + q, a + b, u)
  {
    FollowsAppend(s.field, a, b);
    FieldsAppend(a, b);
    FieldsOfAppend(p, q);
  }

  lemma TookOnly(f: u16, field: u16, payload: seq<byte>)
    ensures var es := [Took(field, payload)];
            TakenFields(es) == [field] && FramedFields(es) == []
            && Follows(f, es) && FieldAfter(f, es) == field
  {
    assert [Took(field, payload)][1..] == [];
  }

  lemma AcceptHeaded(s: In, p: seq<byte>)
    ensures Headed(s, [p], Accept(s, p).events, Accept(s, p).next)
  {
    if WellFormed(p) {
      var took := Took(Le16(p[0], p[1]), p[HEADER..]);
      TookOnly(s.field, took.field, took.payload);
      if Accept(s, p).events != [took] {
        var flushed := Flushed(HandlePart(s.field), s.fifo);
        assert ([flushed] + [took])[1..] == [took];
        assert Accept(s, p).events == [flushed] + [took];
      }
    }
  }

  lemma {:induction false} GatherHeaded(s: In, payload: nat, source: seq<seq<byte>>)
    ensures var g := Gather(s, payload, source);
            Headed(s, source[..|source| - |g.rest|], g.events, g.next)
    decreases |source|
  {
    if |s.fifo| < payload && source != [] {
      var a := Accept(s, source[0]);
      var r := Gather(a.next, payload, source[1..]);
      AcceptHeaded(s, source[0]);
      GatherHeaded(a.next, payload, source[1..]);
      var n := |source| - |r.rest|;
      HeadedAppend(s, [source[0]], a.events, a.next, source[1..][..n - 1], r.events, r.next);
      assert source[..n] == [source[0]] + source[1..][..n - 1];
    }
  }

  lemma NextFrameHeaded(s: In, payload: nat)
    requires payload <= 255
    ensures Headed(s, [], NextFrame(s, payload).events, NextFrame(s, payload).next)
  {
  }

  lemma FillHeaded(s: In, maxPacket: nat, capacity: nat, source: seq<seq<byte>>)
    requires s.offset <= |s.frame|
    ensures var f := Fill(s, maxPacket, capacity, source);
            Headed(s, source[..|source| - |f.rest|], f.events, f.next)
  {
    if s.offset >= |s.frame| && PayloadSize(maxPacket) > 0 {
      var payload := PayloadSize(maxPacket);
      var idle := s.(frame := [], offset := 0);
      var g := Gather(idle, payload, source);
      GatherHeaded(idle, payload, source);
      NextFrameHeaded(g.next, payload);
      var n := NextFrame(g.next, payload);
      HeadedAppend(idle, source[..|source| - |g.rest|], g.events, g.next, [], n.events, n.next);
      AloneInPackets(source[..|source| - |g.rest|]);
    }
  }

  lemma AloneInPackets(ps: seq<seq<byte>>)
    ensures ps + [] == ps
  {
  }

  lemma {:induction false} RunHeaded(s: In, rs: seq<Request>)
    requires s.offset <= |s.frame|
    ensures Headed(s, RunAll(s, rs).used, RunAll(s, rs).events, RunAll(s, rs).last)
    decreases |rs|
  {
    if rs != [] {
      var f := Fill(s, rs[0].maxPacket, rs[0].capacity, rs[0].source);
      var r := RunAll(f.next, rs[1..]);
      assert RunAll(s, rs).used == Used(rs[0], f) + r.used && RunAll(s, rs).events == f.events + r.events;
      FillHeaded(s, rs[0].maxPacket, rs[0].capacity, rs[0].source);
      RunHeaded(f.next, rs[1..]);
      HeadedAppend(s, Used(rs[0], f), f.events, f.next, r.used, r.events, r.last);
    }
  }

  /* ---------------------------------------------------------------- progress */

  /** Every packet of a pull accepted, however much voice is waiting already. */
  function TakeAll(s: In, source: seq<seq<byte>>): In
    decreases |source|
  {
    if source == [] then s else TakeAll(Accept(s, source[0]).next, source[1..])
  }

  /** Accepting the packets one by one never brings a whole payload together. */
  ghost predicate Starved(s: In, payload: nat, source: seq<seq<byte>>) {
    forall k :: 0 <= k <= |source| ==> |TakeAll(s, source[..k]).fifo| < payload
  }

  /** When a fill may send nothing: no room, no usable setting, or between packets too little voice. */
  ghost predicate Silent(s: In, r: Request) {
    || r.maxPacket == 0
    || r.capacity == 0
    || (s.offset >= |s.frame|
        && (r.maxPacket < 4 || Starved(s, PayloadSize(r.maxPacket), r.source)))
  }

  lemma {:induction false} CuttingIsApart(s: In, t: In, source: seq<seq<byte>>)
    requires t == s.(frame := t.frame, offset := t.offset)
    ensures TakeAll(t, source) == TakeAll(s, source).(frame := t.frame, offset := t.offset)
    decreases |source|
  {
    if source != [] {
      CuttingIsApart(Accept(s, source[0]).next, Accept(t, source[0]).next, source[1..]);
    }
  }

  lemma PrefixTail<T>(ts: seq<T>, k: nat)
    requires 0 < k <= |ts|
    ensures ts[..k][1..] == ts[1..][..k - 1]
  {
  }

  lemma StarvedStep(s: In, payload: nat, source: seq<seq<byte>>)
    requires source != []
    ensures Starved(s, payload, source)
            <==> |s.fifo| < payload && Starved(Accept(s, source[0]).next, payload, source[1..])
  {
    var next, later := Accept(s, source[0]).next, source[1..];
    forall k | 0 <= k < |source|
      ensures TakeAll(s, source[..k + 1]) == TakeAll(next, later[..k])
    {
      PrefixTail(source, k + 1);
    }
    assert TakeAll(s, source[..0]) == s;
    if Starved(s, payload, source) {
      forall k | 0 <= k <= |later| ensures |TakeAll(next, later[..k]).fifo| < payload {
        assert TakeAll(s, source[..k + 1]) == TakeAll(next, later[..k]);
      }
    }
    if |s.fifo| < payload && Starved(next, payload, later) {
      forall k | 0 <= k <= |source| ensures |TakeAll(s, source[..k]).fifo| < payload {
        if k > 0 {
          assert TakeAll(s, source[..k - 1 + 1]) == TakeAll(next, later[..k - 1]);
        }
      }
    }
  }

  /** A pull comes up short only if no part of the source would have been enough, and then it took it all. */
  lemma {:induction false} GatherProgress(s: In, payload: nat, source: seq<seq<byte>>)
    ensures var g := Gather(s, payload, source);
            && (|g.next.fifo| < payload <==> Starved(s, payload, source))
            && (|g.next.fifo| < payload ==> g.rest == [] && g.next == TakeAll(s, source))
    decreases |source|
  {
    if source == [] {
      assert source[..0] == source;
    } else {
      StarvedStep(s, payload, source);
      if |s.fifo| < payload {
        GatherProgress(Accept(s, source[0]).next, payload, source[1..]);
      }
    }
  }

  lemma StarvedApart(s: In, t: In, payload: nat, source: seq<seq<byte>>)
    requires t == s.(frame := t.frame, offset := t.offset)
    ensures Starved(s, payload, source) <==> Starved(t, payload, source)
  {
    forall k | 0 <= k <= |source|
      ensures |TakeAll(s, source[..k]).fifo| == |TakeAll(t, source[..k]).fifo|
    {
      CuttingIsApart(s, t, source[..k]);
    }
  }

  /** A fill sends nothing exactly when it has to, and then it has taken the whole source. */
  lemma SilenceIsExact(s: In, r: Request)
    requires s.offset <= |s.frame|
    ensures var f := Fill(s, r.maxPacket, r.capacity, r.source);
            && (f.data == [] <==> Silent(s, r))
            && (f.data == [] && s.offset >= |s.frame| && r.maxPacket > 0 && r.capacity > 0
                && PayloadSize(r.maxPacket) > 0
                ==> f.rest == [] && f.next == TakeAll(s, r.source).(frame := [], offset := 0))
  {
    var payload := PayloadSize(r.maxPacket);
    if s.offset >= |s.frame| && payload > 0 {
      var idle := s.(frame := [], offset := 0);
      StarvedApart(s, idle, payload, r.source);
      CuttingIsApart(s, idle, r.source);
      GatherProgress(idle, payload, r.source);
    }
  }

  /** The framer when request i of a run is served. */
  function Before(s: In, rs: seq<Request>, i: nat): In
    requires s.offset <= |s.frame| && i < |rs|
    decreases |rs|
  {
    if i == 0 then s
    else Before(Fill(s, rs[0].maxPacket, rs[0].capacity, rs[0].source).next, rs[1..], i - 1)
  }

  lemma {:induction false} SentIsFilled(s: In, rs: seq<Request>, i: nat)
    requires s.offset <= |s.frame| && i < |rs|
    ensures Before(s, rs, i).offset <= |Before(s, rs, i).frame|
    ensures RunAll(s, rs).sent[i] == Fill(Before(s, rs, i), rs[i].maxPacket, rs[i].capacity, rs[i].source).data
    decreases |rs|
  {
    if i > 0 {
      SentIsFilled(Fill(s, rs[0].maxPacket, rs[0].capacity, rs[0].source).next, rs[1..], i - 1);
    }
  }

  lemma RunProgress(s: In, rs: seq<Request>, i: nat)
    requires s.offset <= |s.frame| && i < |rs|
    ensures RunAll(s, rs).sent[i] == [] <==> Silent(Before(s, rs, i), rs[i])
  {
    SentIsFilled(s, rs, i);
    SilenceIsExact(Before(s, rs, i), rs[i]);
  }

  /* ---------------------------------------------------------------- whole runs */

  lemma {:induction false} RunBalanced(s: In, rs: seq<Request>)
    requires Good(s)
    ensures var r := RunAll(s, rs);
            && Good(r.last)
            && Waiting(s) + Arrived(r.used) == GivenOut(r.events) + Waiting(r.last)
            && r.last.dropped == s.dropped + FlushedBytes(r.events)
            && Unsent(s) + HostStream(r.events) == Concat(r.sent) + Unsent(r.last)
    decreases |rs|
  {
    if rs == [] {
      assert Waiting(s) + [] == [] + Waiting(s);
      assert Unsent(s) + [] == [] + Unsent(s);
    } else {
      var f := Fill(s, rs[0].maxPacket, rs[0].capacity, rs[0].source);
      FillBalanced(s, rs[0].maxPacket, rs[0].capacity, rs[0].source);
      FillTakes(s, rs[0].maxPacket, rs[0].capacity, rs[0].source);
      RunBalanced(f.next, rs[1..]);
      var r := RunAll(f.next, rs[1..]);
      ArrivedAppend(Used(rs[0], f), r.used);
      LedgerAppend(f.events, r.events);
      Assoc(Waiting(s), Arrived(Used(rs[0], f)), Arrived(r.used));
      Assoc(GivenOut(f.events), Waiting(f.next), Arrived(r.used));
      Assoc(GivenOut(f.events), GivenOut(r.events), Waiting(r.last));
      assert ([f.data] + r.sent)[1..] == r.sent;
      Assoc(Unsent(s), HostStream(f.events), HostStream(r.events));
      Assoc(f.data, Unsent(f.next), HostStream(r.events));
      Assoc(f.data, Concat(r.sent), Unsent(r.last));
    }
  }

  /**
   Re-framing preserves voice. Over any run, with controller packets of any size and any alternate
   settings: the voice of the consumed packets, in order and link by link, is exactly the voice framed
   or flushed plus what still waits; DroppedBytes counts the flushed part; the host, cutting its stream
   by the length bytes, reads exactly the framed voice, each packet under the field of the controller
   packet taken last; the packet counters count; fewer than 510 bytes ever wait; and a request goes
   unanswered only when there is no room, no usable setting, or too little voice to start a packet.
   */
  lemma VoicePreserved(s: In, rs: seq<Request>)
    requires Good(s)
    ensures var r := RunAll(s, rs);
            && Good(r.last)
            && Waiting(s) + Arrived(r.used) == GivenOut(r.events) + Waiting(r.last)
            && r.last.dropped == s.dropped + FlushedBytes(r.events)
            && Unsent(s) + HostStream(r.events) == Concat(r.sent) + Unsent(r.last)
            && Arrived(PacketsOf(HostStream(r.events))) == FramedVoice(r.events)
            && FieldsOf(PacketsOf(HostStream(r.events))) == FramedFields(r.events)
            && Headed(s, r.used, r.events, r.last)
            && forall i :: 0 <= i < |rs| ==> (r.sent[i] == [] <==> Silent(Before(s, rs, i), rs[i]))
  {
    RunBalanced(s, rs);
    RunHeaded(s, rs);
    HostReads(s.field, RunAll(s, rs).events);
    forall i | 0 <= i < |rs| ensures RunAll(s, rs).sent[i] == [] <==> Silent(Before(s, rs, i), rs[i]) {
      RunProgress(s, rs, i);
    }
  }

  lemma {:induction false} NothingFlushed(es: seq<Event>)
    requires FlushedBytes(es) == 0
    ensures GivenOut(es) == FramedVoice(es)
    decreases |es|
  {
    if es != [] {
      NothingFlushed(es[1..]);
    }
  }

  /**
   End to end: from between two packets and while no link gives way to another, the host hears, from its
   stream alone, the voice the controller sent, byte for byte and under the controller's handles, up to
   what still waits.
   */
  lemma HostHearsController(s: In, rs: seq<Request>)
    requires Good(s) && s.offset == |s.frame|
    ensures var r := RunAll(s, rs);
            && Good(r.last)
            && (r.last.dropped == s.dropped ==>
                  Waiting(s) + Arrived(r.used)
                  == Arrived(PacketsOf(Concat(r.sent) + Unsent(r.last))) + Waiting(r.last))
  {
    var r := RunAll(s, rs);
    VoicePreserved(s, rs);
    assert Unsent(s) + HostStream(r.events) == HostStream(r.events);
    if r.last.dropped == s.dropped {
      NothingFlushed(r.events);
    }
  }

  lemma NothingBefore<T>(a: seq<T>, b: seq<T>)
    requires a == []
    ensures a + b == b
  {
  }

  /** From a reset the ledgers start at nothing. */
  lemma FromReset(s: In, rs: seq<Request>)
    requires s == EMPTY
    ensures var r := RunAll(s, rs);
            && Good(r.last)
            && Arrived(r.used) == GivenOut(r.events) + Waiting(r.last)
            && HostStream(r.events) == Concat(r.sent) + Unsent(r.last)
            && r.last.dropped == FlushedBytes(r.events) && r.last.framed == |FramedFields(r.events)|
            && r.last.sources == |FieldsOf(r.used)| && r.last.rejected == |r.used| - |FieldsOf(r.used)|
  {
    RunBalanced(s, rs);
    RunHeaded(s, rs);
    NothingBefore(Waiting(s), Arrived(RunAll(s, rs).used));
    NothingBefore(Unsent(s), HostStream(RunAll(s, rs).events));
  }

  /* ---------------------------------------------------------------- USB geometry */

  /** Between packets: the next fill starts a new one or sends nothing. */
  predicate Idle(s: In) {
    Good(s) && s.offset >= |s.frame|
  }

  predicate Roomy(r: Request, maxPacket: nat) {
    r.maxPacket == maxPacket && r.capacity >= maxPacket
  }

  lemma FrameBegins(s: In, a: Request)
    requires Idle(s) && Fill(s, a.maxPacket, a.capacity, a.source).data != []
    ensures var f := Fill(s, a.maxPacket, a.capacity, a.source);
            && |f.next.frame| == HEADER + PayloadSize(a.maxPacket) && PayloadSize(a.maxPacket) > 0
            && f.next.frame[2] == PayloadSize(a.maxPacket)
            && f.next.frame == HostStream(f.events)
            && f.next.offset == |f.data| == Min(Min(|f.next.frame|, a.maxPacket), a.capacity)
            && f.data == f.next.frame[..f.next.offset]
  {
    var payload := PayloadSize(a.maxPacket);
    var idle := s.(frame := [], offset := 0);
    var g := Gather(idle, payload, a.source);
    GatherBalanced(idle, payload, a.source);
    NextFrameBalanced(g.next, payload);
    LedgerAppend(g.events, NextFrame(g.next, payload).events);
  }

  /** Between packets a fill is silent exactly when it must be; otherwise it starts a whole new packet. */
  lemma FrameStarted(s: In, a: Request)
    requires Idle(s)
    ensures var f := Fill(s, a.maxPacket, a.capacity, a.source);
            && (f.data == [] <==> Silent(s, a))
            && (!Silent(s, a) ==>
                && |f.next.frame| == HEADER + PayloadSize(a.maxPacket) && PayloadSize(a.maxPacket) > 0
                && f.next.frame[2] == PayloadSize(a.maxPacket)
                && f.next.frame == HostStream(f.events)
                && f.next.offset == |f.data| == Min(Min(|f.next.frame|, a.maxPacket), a.capacity)
                && f.data == f.next.frame[..f.next.offset])
  {
    SilenceIsExact(s, a);
    if !Silent(s, a) {
      FrameBegins(s, a);
    }
  }

  /** While a packet is being cut, a full isochronous packet takes its next bytes and nothing else. */
  lemma Continues(s: In, maxPacket: nat, r: Request)
    requires 0 < maxPacket && s.offset + maxPacket <= |s.frame| && Roomy(r, maxPacket)
    ensures Fill(s, maxPacket, r.capacity, r.source)
            == Filled(s.(offset := s.offset + maxPacket), s.frame[s.offset..s.offset + maxPacket], r.source, [])
  {
  }

  lemma LastTwoThirds(s: In, maxPacket: nat, b: Request, c: Request)
    requires 0 < maxPacket == s.offset && |s.frame| == 3 * maxPacket
    requires Roomy(b, maxPacket) && Roomy(c, maxPacket)
    ensures var fb := Fill(s, maxPacket, b.capacity, b.source);
            var fc := Fill(fb.next, maxPacket, c.capacity, c.source);
            && fb.data == s.frame[maxPacket..2 * maxPacket] && fb.events == []
            && fc.data == s.frame[2 * maxPacket..3 * maxPacket] && fc.events == []
            && fc.next == s.(offset := 3 * maxPacket)
  {
    Continues(s, maxPacket, b);
    Continues(s.(offset := 2 * maxPacket), maxPacket, c);
  }

  lemma Thirds(f: seq<byte>, n: nat)
    requires |f| == 3 * n
    ensures f[..n] + f[n..2 * n] + f[2 * n..3 * n] == f
  {
  }

  /** Alternate settings 1-5: one host packet is exactly three full isochronous packets. */
  lemma ThreePackets(s: In, maxPacket: nat, a: Request, b: Request, c: Request)
    requires Idle(s) && 4 <= maxPacket < MAX_ISO
    requires Roomy(a, maxPacket) && Roomy(b, maxPacket) && Roomy(c, maxPacket)
    requires !Silent(s, a)
    ensures var fa := Fill(s, maxPacket, a.capacity, a.source);
            var fb := Fill(fa.next, maxPacket, b.capacity, b.source);
            var fc := Fill(fb.next, maxPacket, c.capacity, c.source);
            && Idle(fc.next)
            && |fa.data| == |fb.data| == |fc.data| == maxPacket
            && fa.data + fb.data + fc.data == HostStream(fa.events)
            && fb.events == [] && fc.events == []
            && WellFormed(fa.data + fb.data + fc.data)
  {
    FrameStarted(s, a);
    FillBalanced(s, maxPacket, a.capacity, a.source);
    var fa := Fill(s, maxPacket, a.capacity, a.source);
    var frame := fa.next.frame;
    assert |frame| == 3 * maxPacket && fa.next.offset == maxPacket;
    LastTwoThirds(fa.next, maxPacket, b, c);
    Thirds(frame, maxPacket);
  }

  /** Alternate setting 6: one host packet is exactly one isochronous packet. */
  lemma OnePacket(s: In, maxPacket: nat, a: Request)
    requires Idle(s) && maxPacket >= MAX_ISO && Roomy(a, maxPacket)
    requires !Silent(s, a)
    ensures var f := Fill(s, maxPacket, a.capacity, a.source);
            && Idle(f.next)
            && f.data == HostStream(f.events)
            && |f.data| == HEADER + Min(maxPacket - HEADER, 255)
            && WellFormed(f.data)
  {
    FrameStarted(s, a);
    FillBalanced(s, maxPacket, a.capacity, a.source);
  }
}
