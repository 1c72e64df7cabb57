/**
 Incremental H4 framing on values (src/common/h4_codec.c): a received byte stream becomes packets,
 claimed out-of-band bytes, discarded bytes and rejected headers.
 */
module H4Spec {
  import opened Bytes

  const COMMAND: byte := 1
  const ACL: byte := 2
  const SCO: byte := 3
  const EVENT: byte := 4
  const MAX_PACKET := 1025

  predicate IsType(b: byte) {
    1 <= b <= 4
  }

  function HeaderLength(kind: byte): (n: nat)
    ensures n <= 4 && (IsType(kind) <==> n > 0)
  {
    if kind == COMMAND then 3 else if kind == ACL then 4 else if kind == SCO then 3
    else if kind == EVENT then 2 else 0
  }

  function MaxPayload(kind: byte): nat {
    if kind == ACL then 1021 else if IsType(kind) then 255 else 0
  }

  /** The payload length a complete header declares. */
  function Declared(kind: byte, h: seq<byte>): nat
    requires |h| >= HeaderLength(kind)
  {
    if kind == COMMAND || kind == SCO then h[2]
    else if kind == ACL then Le16(h[2], h[3])
    else if kind == EVENT then h[1]
    else 0
  }

  /** What a decoder holds back: nothing, part of a header, or an accepted header and part of its payload. */
  datatype Progress =
    | Idle
    | Header(kind: byte, got: seq<byte>)
    | Payload(kind: byte, got: seq<byte>)

  datatype Item =
    | Emitted(kind: byte, packet: seq<byte>)
    | Claimed(b: byte)
    | Discarded(b: byte)
    | Rejected(kind: byte, header: seq<byte>)

  /** A received byte, and whether the out-of-band callback would claim it if it were asked. */
  datatype Rx = Rx(b: byte, claim: bool)

  datatype Fed = Fed(next: Progress, items: seq<Item>)

  predicate Sound(p: Progress) {
    match p
    case Idle => true
    case Header(kind, got) => IsType(kind) && |got| < HeaderLength(kind)
    case Payload(kind, got) =>
      && IsType(kind) && HeaderLength(kind) <= |got| < HeaderLength(kind) + Declared(kind, got)
      && Declared(kind, got) <= MaxPayload(kind)
  }

  /** The last header byte has arrived. */
  function Judge(kind: byte, h: seq<byte>): Fed
    requires IsType(kind) && |h| == HeaderLength(kind)
  {
    if Declared(kind, h) > MaxPayload(kind) then Fed(Idle, [Rejected(kind, h)])
    else if Declared(kind, h) == 0 then Fed(Idle, [Emitted(kind, h)])
    else Fed(Payload(kind, h), [])
  }

  function Feed(p: Progress, r: Rx): (f: Fed)
    requires Sound(p)
    ensures Sound(f.next)
  {
    match p
    case Idle =>
      if IsType(r.b) then Fed(Header(r.b, []), [])
      else Fed(Idle, [if r.claim then Claimed(r.b) else Discarded(r.b)])
    case Header(kind, got) =>
      var h := got + [r.b];
      if |h| < HeaderLength(kind) then Fed(Header(kind, h), []) else Judge(kind, h)
    case Payload(kind, got) =>
      var q := got + [r.b];
      if |q| < HeaderLength(kind) + Declared(kind, q) then Fed(Payload(kind, q), [])
      else Fed(Idle, [Emitted(kind, q)])
  }

  function FeedAll(p: Progress, rs: seq<Rx>): (f: Fed)
    requires Sound(p)
    ensures Sound(f.next)
    decreases |rs|
  {
    if rs == [] then Fed(p, [])
    else
      var one := Feed(p, rs[0]);
      var all := FeedAll(one.next, rs[1..]);
      Fed(all.next, one.items + all.items)
  }

  function FeedChunks(p: Progress, chunks: seq<seq<Rx>>): (f: Fed)
    requires Sound(p)
    ensures Sound(f.next)
    decreases |chunks|
  {
    if chunks == [] then Fed(p, [])
    else
      var one := FeedAll(p, chunks[0]);
      var all := FeedChunks(one.next, chunks[1..]);
      Fed(all.next, one.items + all.items)
  }

  function Encode(kind: byte, packet: seq<byte>): seq<byte> {
    [kind] + packet
  }

  /**
   A packet the wire format can carry, byte for byte: commands (1), ACL data (2), voice (3) and events (4).
   Its header declares exactly the payload behind it, and an ACL packet has at most 1021 bytes of that.
   */
  predicate Legal(kind: byte, packet: seq<byte>) {
    || ((kind == 1 || kind == 3) && |packet| >= 3 && |packet| - 3 == packet[2])
    || (kind == 2 && |packet| >= 4 && |packet| - 4 == packet[2] as int + 256 * (packet[3] as int) <= 1021)
    || (kind == 4 && |packet| >= 2 && |packet| - 2 == packet[1])
  }

  /** An ACL header (2) whose declared length no legal packet has. */
  predicate Oversized(kind: byte, header: seq<byte>) {
    kind == 2 && |header| == 4 && header[2] as int + 256 * (header[3] as int) > 1021
  }

  predicate WellFormed(i: Item) {
    match i
    case Emitted(kind, packet) => Legal(kind, packet)
    case Claimed(b) => !IsType(b)
    case Discarded(b) => !IsType(b)
    case Rejected(kind, header) => Oversized(kind, header)
  }

  /** The bytes of the stream an item accounts for. */
  function Spelling(i: Item): seq<byte> {
    match i
    case Emitted(kind, packet) => Encode(kind, packet)
    case Claimed(b) => [b]
    case Discarded(b) => [b]
    case Rejected(kind, header) => Encode(kind, header)
  }

  function Spellings(items: seq<Item>): (s: seq<byte>)
    decreases |items|
  {
    if items == [] then [] else Spelling(items[0]) + Spellings(items[1..])
  }

  function Pending(p: Progress): seq<byte> {
    match p
    case Idle => []
    case Header(kind, got) => Encode(kind, got)
    case Payload(kind, got) => Encode(kind, got)
  }

  function Raw(rs: seq<Rx>): (s: seq<byte>)
    ensures |s| == |rs|
    ensures forall i :: 0 <= i < |rs| ==> s[i] == rs[i].b
  {
    seq(|rs|, i requires 0 <= i < |rs| => rs[i].b)
  }

  /** The decoder's tables of header sizes, length fields and limits describe exactly the legal packets. */
  lemma LegalByTable(kind: byte, packet: seq<byte>)
    ensures Legal(kind, packet)
            <==> && IsType(kind) && |packet| >= HeaderLength(kind)
                 && |packet| == HeaderLength(kind) + Declared(kind, packet)
                 && Declared(kind, packet) <= MaxPayload(kind)
    ensures IsType(kind) && |packet| == HeaderLength(kind)
            ==> (Oversized(kind, packet) <==> Declared(kind, packet) > MaxPayload(kind))
  {
  }

  /* ---------------------------------------------------------------- conservation */

  lemma {:induction false} SpellingsAppend(a: seq<Item>, b: seq<Item>)
    ensures Spellings(a + b) == Spellings(a) + Spellings(b)
    decreases |a|
  {
    if a == [] {
      assert a + b == b;
    } else {
      assert (a + b)[1..] == a[1..] + b;
      SpellingsAppend(a[1..], b);
      Assoc(Spelling(a[0]), Spellings(a[1..]), Spellings(b));
    }
  }

  lemma SpellingsOne(i: Item)
    ensures Spellings([i]) == Spelling(i)
  {
    assert Spellings([i]) == Spelling(i) + Spellings([]);
  }

  lemma FeedConserves(p: Progress, r: Rx)
    requires Sound(p)
    ensures Pending(p) + [r.b] == Spellings(Feed(p, r).items) + Pending(Feed(p, r).next)
  {
    var f := Feed(p, r);
    if f.items != [] {
      SpellingsOne(f.items[0]);
    }
    if p != Idle {
      Assoc([p.kind], p.got, [r.b]);
    }
  }

  /**
   Nothing is lost and nothing invented: whatever the stream and however the out-of-band callback
   answers, the bytes held before and the bytes received are, in order, the items' bytes and the bytes
   still held.
   */
  lemma {:induction false} Ledger(p: Progress, rs: seq<Rx>)
    requires Sound(p)
    ensures Pending(p) + Raw(rs) == Spellings(FeedAll(p, rs).items) + Pending(FeedAll(p, rs).next)
    decreases |rs|
  {
    if rs == [] {
      assert Pending(p) + Raw(rs) == [] + Pending(p);
    } else {
      var one := Feed(p, rs[0]);
      var all := FeedAll(one.next, rs[1..]);
      FeedConserves(p, rs[0]);
      Ledger(one.next, rs[1..]);
      assert Raw(rs) == [rs[0].b] + Raw(rs[1..]);
      SpellingsAppend(one.items, all.items);
      FiveParts(Pending(p), [rs[0].b], Raw(rs[1..]), Spellings(one.items), Pending(one.next),
                Spellings(all.items), Pending(all.next));
    }
  }

  lemma FiveParts(p: seq<byte>, b: seq<byte>, rs: seq<byte>, s: seq<byte>, q: seq<byte>, t: seq<byte>, u: seq<byte>)
    requires p + b == s + q && q + rs == t + u
    ensures p + (b + rs) == (s + t) + u
  {
    Assoc(p, b, rs);
    Assoc(s, q, rs);
    Assoc(s, t, u);
  }

  /** Every item is what its name says: a legal packet, a stray byte, or a header with an impossible length. */
  lemma {:induction false} ItemsWellFormed(p: Progress, rs: seq<Rx>)
    requires Sound(p)
    ensures forall i <- FeedAll(p, rs).items :: WellFormed(i)
    decreases |rs|
  {
    if rs != [] {
      ItemsWellFormed(Feed(p, rs[0]).next, rs[1..]);
    }
  }

  /** The decoder sees one stream, however the transport cuts it. */
  lemma {:induction false} FeedAppend(p: Progress, a: seq<Rx>, b: seq<Rx>)
    requires Sound(p)
    ensures var f := FeedAll(p, a);
            var g := FeedAll(f.next, b);
            FeedAll(p, a + b) == Fed(g.next, f.items + g.items)
    decreases |a|
  {
    if a == [] {
      assert a + b == b;
    } else {
      assert (a + b)[1..] == a[1..] + b;
      var one := Feed(p, a[0]);
      FeedAppend(one.next, a[1..], b);
      var f := FeedAll(one.next, a[1..]);
      var g := FeedAll(f.next, b);
      Assoc(one.items, f.items, g.items);
    }
  }

  lemma {:induction false} ChunkingIsInvisible(p: Progress, chunks: seq<seq<Rx>>)
    requires Sound(p)
    ensures FeedChunks(p, chunks) == FeedAll(p, Concat(chunks))
    decreases |chunks|
  {
    if chunks != [] {
      var one := FeedAll(p, chunks[0]);
      ChunkingIsInvisible(one.next, chunks[1..]);
      FeedAppend(p, chunks[0], Concat(chunks[1..]));
    }
  }

  /* ---------------------------------------------------------------- round trip */

  /** Payload bytes are only collected until the declared length is reached. */
  lemma {:induction false} PayloadFills(kind: byte, got: seq<byte>, rs: seq<Rx>)
    requires Sound(Payload(kind, got)) && rs != []
    requires |got| + |rs| == HeaderLength(kind) + Declared(kind, got)
    ensures FeedAll(Payload(kind, got), rs) == Fed(Idle, [Emitted(kind, got + Raw(rs))])
    decreases |rs|
  {
    var q := got + [rs[0].b];
    assert got + Raw(rs) == q + Raw(rs[1..]);
    if |rs| == 1 {
      assert rs[1..] == [];
      assert got + Raw(rs) == q;
    } else {
      PayloadFills(kind, q, rs[1..]);
    }
  }

  lemma {:induction false} HeaderFills(kind: byte, got: seq<byte>, rs: seq<Rx>)
    requires Sound(Header(kind, got)) && |got| + |rs| == HeaderLength(kind)
    ensures FeedAll(Header(kind, got), rs) == Judge(kind, got + Raw(rs))
    decreases |rs|
  {
    var h := got + [rs[0].b];
    assert got + Raw(rs) == h + Raw(rs[1..]);
    if |rs| == 1 {
      assert rs[1..] == [] && Raw(rs[1..]) == [];
      assert got + Raw(rs) == h;
      assert Feed(Header(kind, got), rs[0]) == Judge(kind, h);
      assert FeedAll(Judge(kind, h).next, []) == Fed(Judge(kind, h).next, []);
      assert Judge(kind, h).items + [] == Judge(kind, h).items;
    } else {
      HeaderFills(kind, h, rs[1..]);
      assert Feed(Header(kind, got), rs[0]) == Fed(Header(kind, h), []);
    }
  }

  lemma {:induction false} TypeThenHeader(rs: seq<Rx>)
    requires rs != [] && IsType(rs[0].b) && |rs| == 1 + HeaderLength(rs[0].b)
    ensures FeedAll(Idle, rs) == Judge(rs[0].b, Raw(rs)[1..])
  {
    assert Raw(rs)[1..] == Raw(rs[1..]) == [] + Raw(rs[1..]);
    HeaderFills(rs[0].b, [], rs[1..]);
    assert Feed(Idle, rs[0]) == Fed(Header(rs[0].b, []), []);
  }

  /** rs is the wire form of the item, with the out-of-band answers that lead to it. */
  predicate Spells(rs: seq<Rx>, i: Item) {
    && WellFormed(i) && Raw(rs) == Spelling(i)
    && (i.Claimed? ==> rs[0].claim)
    && (i.Discarded? ==> !rs[0].claim)
  }

  lemma RawParts(rs: seq<Rx>, n: nat)
    requires n <= |rs|
    ensures Raw(rs[..n]) == Raw(rs)[..n]
    ensures Raw(rs[n..]) == Raw(rs)[n..]
  {
  }

  lemma BehindFirst(b: byte, s: seq<byte>, n: nat)
    requires 0 < n <= 1 + |s|
    ensures ([b] + s)[..n][1..] == s[..n - 1]
    ensures ([b] + s)[n..] == s[n - 1..]
  {
  }

  lemma DeclaredInHeader(kind: byte, packet: seq<byte>)
    requires Legal(kind, packet)
    ensures HeaderLength(kind) <= |packet|
    ensures Declared(kind, packet[..HeaderLength(kind)])
            == Declared(kind, packet) == |packet| - HeaderLength(kind)
  {
  }

  /** The wire form of a packet is a type byte, a header and the declared payload. */
  lemma PacketParts(rs: seq<Rx>, kind: byte, packet: seq<byte>)
    requires Legal(kind, packet) && Raw(rs) == Encode(kind, packet)
    ensures var n := 1 + HeaderLength(kind);
            && |rs| == 1 + |packet| && n <= |rs| && rs[0].b == kind
            && Raw(rs[..n])[1..] == packet[..n - 1] && Raw(rs[n..]) == packet[n - 1..]
            && Declared(kind, packet[..n - 1]) == Declared(kind, packet) == |rs| - n
  {
    DeclaredInHeader(kind, packet);
    RawParts(rs, 1 + HeaderLength(kind));
    BehindFirst(kind, packet, 1 + HeaderLength(kind));
    assert rs[0].b == Raw(rs)[0];
  }

  lemma EmptyBody(kind: byte, packet: seq<byte>)
    requires Legal(kind, packet) && |packet| == HeaderLength(kind)
    ensures Judge(kind, packet) == Fed(Idle, [Emitted(kind, packet)])
  {
  }

  lemma BodyDecodes(kind: byte, packet: seq<byte>, body: seq<Rx>)
    requires Legal(kind, packet) && body != [] && Raw(body) == packet[HeaderLength(kind)..]
    ensures var judged := Judge(kind, packet[..HeaderLength(kind)]);
            judged.items == [] && FeedAll(judged.next, body) == Fed(Idle, [Emitted(kind, packet)])
  {
    var n := HeaderLength(kind);
    DeclaredInHeader(kind, packet);
    assert |packet[n..]| == |body|;
    PayloadFills(kind, packet[..n], body);
    assert packet[..n] + packet[n..] == packet;
  }

  lemma HeadAndBody(kind: byte, packet: seq<byte>, head: seq<Rx>, body: seq<Rx>)
    requires Legal(kind, packet) && |head| == 1 + HeaderLength(kind) && head[0].b == kind
    requires Raw(head)[1..] == packet[..HeaderLength(kind)] && Raw(body) == packet[HeaderLength(kind)..]
    ensures FeedAll(Idle, head + body) == Fed(Idle, [Emitted(kind, packet)])
  {
    TypeThenHeader(head);
    if body == [] {
      assert |packet[HeaderLength(kind)..]| == |Raw(body)| == 0;
      assert packet[..HeaderLength(kind)] == packet;
      EmptyBody(kind, packet);
      assert head + body == head;
    } else {
      FeedAppend(Idle, head, body);
      BodyDecodes(kind, packet, body);
      assert [] + [Emitted(kind, packet)] == [Emitted(kind, packet)];
    }
  }

  lemma PacketDecodes(rs: seq<Rx>, i: Item)
    requires Spells(rs, i) && i.Emitted?
    ensures FeedAll(Idle, rs) == Fed(Idle, [i])
  {
    var n := 1 + HeaderLength(i.kind);
    PacketParts(rs, i.kind, i.packet);
    assert rs == rs[..n] + rs[n..] && rs[..n][0].b == i.kind;
    HeadAndBody(i.kind, i.packet, rs[..n], rs[n..]);
  }

  lemma OneItemDecodes(rs: seq<Rx>, i: Item)
    requires Spells(rs, i)
    ensures FeedAll(Idle, rs) == Fed(Idle, [i])
  {
    assert rs[0].b == Raw(rs)[0];
    if i.Emitted? {
      PacketDecodes(rs, i);
    } else if i.Rejected? {
      TypeThenHeader(rs);
      assert Raw(rs)[1..] == i.header;
    } else {
      assert |rs| == 1 && rs[1..] == [];
    }
  }

  lemma {:induction false} ItemsDecode(wire: seq<seq<Rx>>, items: seq<Item>)
    requires |wire| == |items| && forall i :: 0 <= i < |items| ==> Spells(wire[i], items[i])
    ensures FeedAll(Idle, Concat(wire)) == Fed(Idle, items)
    decreases |wire|
  {
    if wire != [] {
      OneItemDecodes(wire[0], items[0]);
      ItemsDecode(wire[1..], items[1..]);
      FeedAppend(Idle, wire[0], Concat(wire[1..]));
      assert items == [items[0]] + items[1..];
    }
  }

  /**
   Round trip with resynchronisation: legal packets encoded in any order, with claimed bytes, stray
   bytes and oversized headers anywhere between them, come back exactly, however the stream is cut.
   */
  lemma RoundTrip(wire: seq<seq<Rx>>, items: seq<Item>, chunks: seq<seq<Rx>>)
    requires |wire| == |items| && forall i :: 0 <= i < |items| ==> Spells(wire[i], items[i])
    requires Concat(chunks) == Concat(wire)
    ensures FeedChunks(Idle, chunks) == Fed(Idle, items)
  {
    ItemsDecode(wire, items);
    ChunkingIsInvisible(Idle, chunks);
  }

  /** Every packet of the wire format decodes to itself. */
  lemma LegalPacketDecodes(rs: seq<Rx>, kind: byte, packet: seq<byte>)
    requires Raw(rs) == [kind] + packet
    requires || ((kind == 1 || kind == 3) && |packet| >= 3 && |packet| - 3 == packet[2])
             || (kind == 2 && |packet| >= 4 && |packet| - 4 == packet[2] as int + 256 * (packet[3] as int) <= 1021)
             || (kind == 4 && |packet| >= 2 && |packet| - 2 == packet[1])
    ensures FeedAll(Idle, rs) == Fed(Idle, [Emitted(kind, packet)])
  {
    PacketDecodes(rs, Emitted(kind, packet));
  }

  /**
   An ACL header is rejected exactly when it declares more than 1021 bytes; that costs its type byte and
   its header, five bytes, and nothing after them. Any other header is a packet, or waits for its data.
   */
  lemma OversizedCostsFive(rs: seq<Rx>, rest: seq<Rx>)
    requires |rs| == 5 && rs[0].b == 2
    ensures var n, header := rs[3].b as int + 256 * (rs[4].b as int), Raw(rs)[1..];
            var head, after := FeedAll(Idle, rs), FeedAll(Idle, rest);
            && (head.items == [Rejected(2, header)] <==> n > 1021)
            && (n > 1021 ==> FeedAll(Idle, rs + rest) == Fed(after.next, [Rejected(2, header)] + after.items))
            && (n == 0 ==> head == Fed(Idle, [Emitted(2, header)]))
            && (0 < n <= 1021 ==> head == Fed(Payload(2, header), []))
  {
    TypeThenHeader(rs);
    FeedAppend(Idle, rs, rest);
  }

  /** No other packet type can be rejected: its length byte cannot exceed the limit. */
  lemma OnlyAclIsRejected(p: Progress, rs: seq<Rx>)
    requires Sound(p)
    ensures forall i <- FeedAll(p, rs).items :: i.Rejected? ==>
              i.kind == 2 && |i.header| == 4 && i.header[2] as int + 256 * (i.header[3] as int) > 1021
  {
    ItemsWellFormed(p, rs);
  }

  /* ---------------------------------------------------------------- counters */

  /** The observability counters of a decoder. */
  datatype Tally = Tally(
    consumed: nat, commands: nat, acls: nat, scos: nat, events: nat, desynchronised: nat, oversized: nat)

  const ZERO := Tally(0, 0, 0, 0, 0, 0, 0)

  function Note(t: Tally, i: Item): Tally {
    match i
    case Emitted(kind, packet) =>
      if kind == COMMAND then t.(commands := t.commands + 1)
      else if kind == ACL then t.(acls := t.acls + 1)
      else if kind == SCO then t.(scos := t.scos + 1)
      else if kind == EVENT then t.(events := t.events + 1)
      else t
    case Claimed(_) => t
    case Discarded(_) => t.(desynchronised := t.desynchronised + 1)
    case Rejected(_, header) =>
      t.(desynchronised := t.desynchronised + 1 + |header|, oversized := t.oversized + 1)
  }

  function NoteAll(t: Tally, items: seq<Item>): Tally
    decreases |items|
  {
    if items == [] then t else NoteAll(Note(t, items[0]), items[1..])
  }

  lemma {:induction false} NoteAllAppend(t: Tally, a: seq<Item>, b: seq<Item>)
    ensures NoteAll(t, a + b) == NoteAll(NoteAll(t, a), b)
    decreases |a|
  {
    if a == [] {
      assert a + b == b;
    } else {
      assert (a + b)[1..] == a[1..] + b;
      NoteAllAppend(Note(t, a[0]), a[1..], b);
    }
  }

  /** The packets of one kind, in order. */
  function Packets(items: seq<Item>, kind: byte): seq<seq<byte>>
    decreases |items|
  {
    if items == [] then []
    else
      (if items[0].Emitted? && items[0].kind == kind then [items[0].packet] else [])
      + Packets(items[1..], kind)
  }

  /** The headers refused for their length, in order. */
  function Refused(items: seq<Item>): seq<seq<byte>>
    decreases |items|
  {
    if items == [] then []
    else (if items[0].Rejected? then [items[0].header] else []) + Refused(items[1..])
  }

  /** The bytes that belong to no packet and that nobody claimed. */
  function Losses(items: seq<Item>): seq<byte>
    decreases |items|
  {
    if items == [] then []
    else (if items[0].Discarded? || items[0].Rejected? then Spelling(items[0]) else []) + Losses(items[1..])
  }

  function Kept(items: seq<Item>): seq<byte>
    decreases |items|
  {
    if items == [] then []
    else (if items[0].Discarded? || items[0].Rejected? then [] else Spelling(items[0])) + Kept(items[1..])
  }

  lemma {:induction false} PacketsCount(t: Tally, items: seq<Item>)
    ensures var u := NoteAll(t, items);
            && u.consumed == t.consumed
            && u.commands == t.commands + |Packets(items, 1)|
            && u.acls == t.acls + |Packets(items, 2)|
            && u.scos == t.scos + |Packets(items, 3)|
            && u.events == t.events + |Packets(items, 4)|
    decreases |items|
  {
    if items != [] {
      PacketsCount(Note(t, items[0]), items[1..]);
    }
  }

  lemma {:induction false} LossesCount(t: Tally, items: seq<Item>)
    ensures var u := NoteAll(t, items);
            && u.desynchronised == t.desynchronised + |Losses(items)|
            && u.oversized == t.oversized + |Refused(items)|
            && |Spellings(items)| == |Kept(items)| + |Losses(items)|
    decreases |items|
  {
    if items != [] {
      LossesCount(Note(t, items[0]), items[1..]);
    }
  }

  /** Each counter is exactly the number of packets (by their type bytes), bytes or headers it is named after. */
  lemma CountersCount(t: Tally, items: seq<Item>)
    ensures var u := NoteAll(t, items);
            && u.consumed == t.consumed
            && u.commands == t.commands + |Packets(items, 1)|
            && u.acls == t.acls + |Packets(items, 2)|
            && u.scos == t.scos + |Packets(items, 3)|
            && u.events == t.events + |Packets(items, 4)|
            && u.desynchronised == t.desynchronised + |Losses(items)|
            && u.oversized == t.oversized + |Refused(items)|
            && |Spellings(items)| == |Kept(items)| + |Losses(items)|
  {
    PacketsCount(t, items);
    LossesCount(t, items);
  }

  /**
   From power-up, every byte consumed is part of an emitted or claimed item, counted as
   desynchronised, or still held.
   */
  lemma {:induction false} BytesAccounted(rs: seq<Rx>)
    ensures var f := FeedAll(Idle, rs);
            var t := NoteAll(ZERO.(consumed := |rs|), f.items);
            t.consumed == |Kept(f.items)| + t.desynchronised + |Pending(f.next)|
  {
    Ledger(Idle, rs);
    CountersCount(ZERO.(consumed := |rs|), FeedAll(Idle, rs).items);
    assert |Raw(rs)| == |rs|;
  }
}
