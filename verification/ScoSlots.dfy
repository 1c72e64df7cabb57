/**
 When each voice frame may leave: the exact slot of every isochronous packet of an OUT transfer, and what a
 run of transfers and ticks therefore still holds (src/driver/endpoints.c, src/common/sco_usb.c).
 */
module ScoSlots {
  import opened Bytes
  import opened ScoOutSpec
  import opened ScoPacingSpec

  /** A packet of a transfer as the clock sees it: its air time and the frames it becomes. */
  datatype Timed = Timed(span: nat, frames: seq<seq<byte>>)

  function FramesOf(buffer: seq<byte>, p: Iso): seq<seq<byte>> {
    if Fits(buffer, p) then Frames(Payload(buffer, p)) else []
  }

  function TimedOf(maxPacket: nat, buffer: seq<byte>, ps: seq<Iso>): (items: seq<Timed>)
    ensures |items| == |ps|
    ensures forall k :: 0 <= k < |ps| ==>
              items[k] == Timed(IsoSpan(maxPacket, buffer, ps[k]), FramesOf(buffer, ps[k]))
  {
    seq(|ps|, k requires 0 <= k < |ps| => Timed(IsoSpan(maxPacket, buffer, ps[k]), FramesOf(buffer, ps[k])))
  }

  /** The air time of the first k packets. */
  function Before(items: seq<Timed>, k: nat): nat
    requires k <= |items|
  {
    if k == 0 then 0 else Before(items, k - 1) + items[k - 1].span
  }

  function Stamped(due: nat, fs: seq<seq<byte>>): (q: seq<Chunk>)
    ensures |q| == |fs|
    ensures forall i :: 0 <= i < |fs| ==> q[i] == Chunk(due, fs[i])
  {
    seq(|fs|, i requires 0 <= i < |fs| => Chunk(due, fs[i]))
  }

  /**
   The frames of a transfer whose air time begins at start, from packet k on: those of each packet are due
   when its own air time and that of all the packets before it are over.
   */
  function Slots(start: nat, items: seq<Timed>, k: nat): seq<Chunk>
    requires k <= |items|
    decreases |items| - k
  {
    if k == |items| then []
    else Stamped(start + Before(items, k + 1), items[k].frames) + Slots(start, items, k + 1)
  }

  /** What a ring that overwrites its oldest frame keeps of a queue. */
  function Newest(q: seq<Chunk>): (r: seq<Chunk>)
    ensures |r| <= 128
  {
    if |q| <= 128 then q else q[|q| - 128..]
  }

  /** The frames still to come at time t. */
  function Pending(q: seq<Chunk>, t: nat): seq<Chunk> {
    if q == [] then [] else (if q[0].due > t then [q[0]] else []) + Pending(q[1..], t)
  }

  /* ---------------------------------------------------------------- the slots of one transfer */

  lemma {:induction false} SpanSnoc(maxPacket: nat, buffer: seq<byte>, before: seq<Iso>, p: Iso)
    ensures TotalSpan(maxPacket, buffer, before + [p])
            == TotalSpan(maxPacket, buffer, before) + IsoSpan(maxPacket, buffer, p)
    decreases |before|
  {
    if before == [] {
      assert before + [p] == [p] && [p][1..] == [];
    } else {
      assert (before + [p])[0] == before[0] && (before + [p])[1..] == before[1..] + [p];
      SpanSnoc(maxPacket, buffer, before[1..], p);
    }
  }

  /** The air time of the first k packets is what the driver's first pass adds up for them. */
  lemma {:induction false} BeforeIsSpan(maxPacket: nat, buffer: seq<byte>, ps: seq<Iso>, k: nat)
    requires k <= |ps|
    ensures Before(TimedOf(maxPacket, buffer, ps), k) == TotalSpan(maxPacket, buffer, ps[..k])
    decreases k
  {
    if k > 0 {
      BeforeIsSpan(maxPacket, buffer, ps, k - 1);
      SpanSnoc(maxPacket, buffer, ps[..k - 1], ps[k - 1]);
      assert ps[..k] == ps[..k - 1] + [ps[k - 1]];
    }
  }

  predicate AllVoice(buffer: seq<byte>, ps: seq<Iso>) {
    forall p <- ps :: p.length > 3 && p.offset + p.length <= |buffer|
  }

  lemma {:induction false} EvenSlots(items: seq<Timed>, span: nat, k: nat)
    requires k <= |items| && forall j :: 0 <= j < |items| ==> items[j].span == span
    ensures Before(items, k) == span * k
    decreases k
  {
    if k > 0 {
      EvenSlots(items, span, k - 1);
      assert span * k == span * (k - 1) + span;
    }
  }

  /**
   The even spacing of slots: packet k of a transfer begins 7.5 ms times k after the transfer when all are
   voice on alternate setting 6, and 1 ms times k on the smaller settings, whatever the packets are.
   */
  lemma SlotsAreEven(maxPacket: nat, buffer: seq<byte>, ps: seq<Iso>, k: nat)
    requires k <= |ps|
    ensures maxPacket >= 63 && AllVoice(buffer, ps) ==> Before(TimedOf(maxPacket, buffer, ps), k) == 75000 * k
    ensures maxPacket < 63 ==> Before(TimedOf(maxPacket, buffer, ps), k) == 10000 * k
  {
    var items := TimedOf(maxPacket, buffer, ps);
    var span := if maxPacket >= 63 then 75000 else 10000;
    if maxPacket < 63 || AllVoice(buffer, ps) {
      forall j | 0 <= j < |items| ensures items[j].span == span {
        assert ps[j] in ps;
        SpanInNumbers(maxPacket, buffer, ps[j]);
      }
      EvenSlots(items, span, k);
    }
  }

  /** The second pass over a transfer, packet by packet. */
  function QueueFrom(o: Out, at: nat, items: seq<Timed>, k: nat): Out
    requires k <= |items|
    decreases |items| - k
  {
    if k == |items| then o
    else QueueFrom(PushFrames(o, at + items[k].span, items[k].frames), at + items[k].span, items, k + 1)
  }

  lemma {:induction false} QueueAllIsFrom(o: Out, at: nat, maxPacket: nat, buffer: seq<byte>, ps: seq<Iso>, k: nat)
    requires k <= |ps|
    ensures QueueAll(o, at, maxPacket, buffer, ps[k..]) == QueueFrom(o, at, TimedOf(maxPacket, buffer, ps), k)
    decreases |ps| - k
  {
    if k < |ps| {
      var items := TimedOf(maxPacket, buffer, ps);
      assert ps[k..][0] == ps[k] && ps[k..][1..] == ps[k + 1..];
      QueueAllIsFrom(PushFrames(o, at + items[k].span, items[k].frames), at + items[k].span,
                     maxPacket, buffer, ps, k + 1);
    }
  }

  lemma NewestAgain(a: seq<Chunk>, b: seq<Chunk>)
    ensures Newest(Newest(a) + b) == Newest(a + b)
  {
  }

  lemma NewestCons(r: seq<Chunk>, c: Chunk, later: seq<Chunk>, all: seq<Chunk>)
    requires all == [c] + later
    ensures Newest(Newest(r + [c]) + later) == Newest(r + all)
  {
    NewestAgain(r + [c], later);
    Assoc(r, [c], later);
  }

  lemma StampedCons(due: nat, fs: seq<seq<byte>>)
    requires fs != []
    ensures Stamped(due, fs) == [Chunk(due, fs[0])] + Stamped(due, fs[1..])
  {
  }

  lemma PushOneIsNewest(o: Out, c: Chunk)
    requires |o.ring| <= SLOTS
    ensures PushChunk(o, c).ring == Newest(o.ring + [c])
    ensures PushChunk(o, c).drops == o.drops + if |o.ring| < SLOTS then 0 else 1
  {
  }

  /** Frames pushed for one time go behind the others; only the newest 128 stay. */
  lemma {:induction false} PushIsNewest(o: Out, due: nat, fs: seq<seq<byte>>)
    requires |o.ring| <= SLOTS
    ensures PushFrames(o, due, fs).ring == Newest(o.ring + Stamped(due, fs))
    decreases |fs|
  {
    if fs == [] {
      assert o.ring + Stamped(due, fs) == o.ring;
    } else {
      var c := Chunk(due, fs[0]);
      PushOneIsNewest(o, c);
      PushIsNewest(PushChunk(o, c), due, fs[1..]);
      StampedCons(due, fs);
      NewestCons(o.ring, c, Stamped(due, fs[1..]), Stamped(due, fs));
    }
  }

  lemma {:induction false} PushDrops(o: Out, due: nat, fs: seq<seq<byte>>)
    requires |o.ring| <= SLOTS
    ensures PushFrames(o, due, fs).drops == o.drops + Max(0, |o.ring| + |fs| - SLOTS)
    decreases |fs|
  {
    if fs != [] {
      var c := Chunk(due, fs[0]);
      PushOneIsNewest(o, c);
      PushDrops(PushChunk(o, c), due, fs[1..]);
    }
  }

  /** The ring holds the newest frames of all; the others have been counted as dropped. */
  predicate Holds(o: Out, all: seq<Chunk>, drops: nat) {
    o.ring == Newest(all) && o.drops == drops + Max(0, |all| - 128)
  }

  /** One more packet behind what has been queued. */
  lemma PushBehind(q: Out, base: seq<Chunk>, drops: nat, due: nat, fs: seq<seq<byte>>, r: Out, all: seq<Chunk>)
    requires Holds(q, base, drops)
    requires r == PushFrames(q, due, fs) && all == base + Stamped(due, fs)
    ensures Holds(r, all, drops)
  {
    PushIsNewest(q, due, fs);
    PushDrops(q, due, fs);
    NewestAgain(base, Stamped(due, fs));
  }

  /**
   The slots of a transfer. Whatever was queued, afterwards the ring holds the newest of it followed by
   the frames of every packet in order, each stamped with the end of its own packet's slot.
   */
  lemma {:induction false} SlotsAreExact(o: Out, start: nat, items: seq<Timed>, k: nat,
                                         before: seq<Chunk>, drops: nat, all: seq<Chunk>)
    requires k <= |items| && Holds(o, before, drops) && all == before + Slots(start, items, k)
    ensures Holds(QueueFrom(o, start + Before(items, k), items, k), all, drops)
    decreases |items| - k
  {
    if k == |items| {
      assert all == before;
    } else {
      var due, fs := start + Before(items, k + 1), items[k].frames;
      var one := PushFrames(o, due, fs);
      PushBehind(o, before, drops, due, fs, one, before + Stamped(due, fs));
      Assoc(before, Stamped(due, fs), Slots(start, items, k + 1));
      SlotsAreExact(one, start, items, k + 1, before + Stamped(due, fs), drops, all);
    }
  }

  lemma AcceptQueues(p: Path, now: nat, maxPacket: nat, buffer: seq<byte>, ps: seq<Iso>)
    ensures var q, start, items := AcceptOut(p, now, maxPacket, buffer, ps), Max(p.nextFree, now),
                                   TimedOf(maxPacket, buffer, ps);
            && q.out == QueueFrom(p.out, start, items, 0)
            && q.nextFree == start + Before(items, |items|)
  {
    assert ps[0..] == ps && ps[..|ps|] == ps;
    QueueAllIsFrom(p.out, Max(p.nextFree, now), maxPacket, buffer, ps, 0);
    BeforeIsSpan(maxPacket, buffer, ps, |ps|);
  }

  lemma NewestEndsWith(q: seq<Chunk>, a: seq<Chunk>, c: Chunk)
    requires q != [] && q[|q| - 1] == c
    ensures Newest(a + q) != [] && Newest(a + q)[|Newest(a + q)| - 1] == c
  {
  }

  lemma {:induction false} LastSlot(start: nat, items: seq<Timed>, k: nat)
    requires k < |items| && items[|items| - 1].frames != []
    ensures var q := Slots(start, items, k);
            q != [] && q[|q| - 1].due == start + Before(items, |items|)
    decreases |items| - k
  {
    if k + 1 < |items| {
      LastSlot(start, items, k + 1);
    } else {
      assert Slots(start, items, k + 1) == [];
    }
  }

  lemma LastInRing(o: Out, before: seq<Chunk>, start: nat, items: seq<Timed>, drops: nat)
    requires Holds(o, before + Slots(start, items, 0), drops)
    requires items != [] && items[|items| - 1].frames != []
    ensures o.ring != [] && o.ring[|o.ring| - 1].due == start + Before(items, |items|)
  {
    LastSlot(start, items, 0);
    var q := Slots(start, items, 0);
    NewestEndsWith(q, before, q[|q| - 1]);
  }

  /**
   A transfer starts when the clock is free. Its frames join the ring in order, packet k's due when the air
   time of the packets up to and including k is over, and the last packet's at the transfer's due time.
   */
  lemma TransferSlots(p: Path, now: nat, maxPacket: nat, buffer: seq<byte>, ps: seq<Iso>)
    requires |p.out.ring| <= SLOTS
    ensures Holds(AcceptOut(p, now, maxPacket, buffer, ps).out,
                  p.out.ring + Slots(Max(p.nextFree, now), TimedOf(maxPacket, buffer, ps), 0), p.out.drops)
    ensures ps != [] && FramesOf(buffer, ps[|ps| - 1]) != [] ==>
              var q := AcceptOut(p, now, maxPacket, buffer, ps);
              q.out.ring != [] && q.out.ring[|q.out.ring| - 1].due == q.nextFree
  {
    var start, items := Max(p.nextFree, now), TimedOf(maxPacket, buffer, ps);
    AcceptQueues(p, now, maxPacket, buffer, ps);
    SlotsAreExact(p.out, start, items, 0, p.out.ring, p.out.drops, p.out.ring + Slots(start, items, 0));
    if ps != [] && FramesOf(buffer, ps[|ps| - 1]) != [] {
      LastInRing(AcceptOut(p, now, maxPacket, buffer, ps).out, p.out.ring, start, items, p.out.drops);
    }
  }

  /** The same order as InOrder, one frame after the other: due times rise from lo to at most hi. */
  predicate Rising(q: seq<Chunk>, lo: nat, hi: nat)
    decreases |q|
  {
    if q == [] then lo <= hi else lo <= q[0].due && Rising(q[1..], q[0].due, hi)
  }

  lemma {:induction false} RisingBounds(q: seq<Chunk>, lo: nat, hi: nat)
    requires Rising(q, lo, hi)
    ensures lo <= hi && forall c :: c in q ==> lo <= c.due <= hi
    decreases |q|
  {
    if q != [] {
      RisingBounds(q[1..], q[0].due, hi);
      assert q == [q[0]] + q[1..];
    }
  }

  lemma {:induction false} RisingWider(q: seq<Chunk>, lo: nat, hi: nat, lower: nat, higher: nat)
    requires Rising(q, lo, hi) && lower <= lo && hi <= higher
    ensures Rising(q, lower, higher)
    decreases |q|
  {
    if q != [] {
      RisingWider(q[1..], q[0].due, hi, q[0].due, higher);
    }
  }

  lemma {:induction false} RisingAppend(a: seq<Chunk>, b: seq<Chunk>, lo: nat, mid: nat, hi: nat)
    requires Rising(a, lo, mid) && Rising(b, mid, hi)
    ensures Rising(a + b, lo, hi)
    decreases |a|
  {
    if a == [] {
      assert a + b == b;
      RisingWider(b, mid, hi, lo, hi);
    } else {
      assert (a + b)[0] == a[0] && (a + b)[1..] == a[1..] + b;
      RisingAppend(a[1..], b, a[0].due, mid, hi);
    }
  }

  lemma {:induction false} RisingDrop(q: seq<Chunk>, lo: nat, hi: nat, k: nat)
    requires Rising(q, lo, hi) && k <= |q|
    ensures Rising(q[k..], lo, hi)
    decreases k
  {
    if k > 0 {
      RisingDrop(q[1..], q[0].due, hi, k - 1);
      RisingWider(q[1..][k - 1..], q[0].due, hi, lo, hi);
      assert q[1..][k - 1..] == q[k..];
    }
  }

  lemma {:induction false} InOrderRises(q: seq<Chunk>, lo: nat, hi: nat)
    requires InOrder(q, hi) && lo <= hi && (q != [] ==> lo <= q[0].due)
    ensures Rising(q, lo, hi)
    decreases |q|
  {
    if q != [] {
      InOrderRises(q[1..], q[0].due, hi);
    }
  }

  lemma {:induction false} StampedRises(due: nat, fs: seq<seq<byte>>, lo: nat)
    requires lo <= due
    ensures Rising(Stamped(due, fs), lo, due)
    decreases |fs|
  {
    if fs != [] {
      StampedRises(due, fs[1..], due);
      StampedCons(due, fs);
    }
  }

  lemma SlotRises(fs: seq<seq<byte>>, later: seq<Chunk>, lo: nat, due: nat, hi: nat)
    requires lo <= due && Rising(later, due, hi)
    ensures Rising(Stamped(due, fs) + later, lo, hi)
  {
    StampedRises(due, fs, lo);
    RisingAppend(Stamped(due, fs), later, lo, due, hi);
  }

  lemma {:induction false} SlotsRise(start: nat, items: seq<Timed>, k: nat)
    requires k <= |items|
    ensures Rising(Slots(start, items, k), start + Before(items, k), start + Before(items, |items|))
    decreases |items| - k
  {
    if k < |items| {
      SlotsRise(start, items, k + 1);
      SlotRises(items[k].frames, Slots(start, items, k + 1), start + Before(items, k), start + Before(items, k + 1),
                start + Before(items, |items|));
    }
  }

  /** A transfer's slots follow whatever was due by its start. */
  lemma SlotsFollow(q: seq<Chunk>, last: nat, start: nat, items: seq<Timed>)
    requires Rising(q, 0, last) && last <= start
    ensures Rising(q + Slots(start, items, 0), 0, start + Before(items, |items|))
  {
    RisingWider(q, 0, last, 0, start);
    SlotsRise(start, items, 0);
    RisingAppend(q, Slots(start, items, 0), 0, start, start + Before(items, |items|));
  }

  /** Packet k's slot not being over at time t, no later frame is due either. */
  lemma {:induction false} LaterSlots(start: nat, items: seq<Timed>, k: nat, t: nat)
    requires k <= |items| && (k < |items| ==> t < start + Before(items, k + 1))
    ensures forall c :: c in Slots(start, items, k) ==> c.due > t
    decreases |items| - k
  {
    if k < |items| {
      LaterSlots(start, items, k + 1, t);
    }
  }

  /** The slots of the packets before k, and that they are over when their air time is. */
  lemma {:induction false} EarlierSlots(start: nat, items: seq<Timed>, j: nat, k: nat) returns (done: seq<Chunk>)
    requires j <= k <= |items|
    ensures Slots(start, items, j) == done + Slots(start, items, k)
    ensures forall c :: c in done ==> c.due <= start + Before(items, k)
    decreases k - j
  {
    if j == k {
      done := [];
      assert [] + Slots(start, items, k) == Slots(start, items, k);
    } else {
      var later := EarlierSlots(start, items, j + 1, k);
      BeforeGrows(items, j + 1, k);
      done := Stamped(start + Before(items, j + 1), items[j].frames) + later;
      Assoc(Stamped(start + Before(items, j + 1), items[j].frames), later, Slots(start, items, k));
    }
  }

  lemma {:induction false} BeforeGrows(items: seq<Timed>, j: nat, k: nat)
    requires j <= k <= |items|
    ensures Before(items, j) <= Before(items, k)
    decreases k - j
  {
    if j < k {
      BeforeGrows(items, j, k - 1);
    }
  }

  lemma SlotsAfterStart(start: nat, maxPacket: nat, buffer: seq<byte>, ps: seq<Iso>)
    ensures forall c :: c in Slots(start, TimedOf(maxPacket, buffer, ps), 0) ==> c.due > start
  {
    var items := TimedOf(maxPacket, buffer, ps);
    if ps != [] {
      assert items[0].span == IsoSpan(maxPacket, buffer, ps[0]) > 0;
      assert Before(items, 0) == 0 && Before(items, 1) == Before(items, 0) + items[0].span;
      LaterSlots(start, items, 0, start);
    }
  }

  /* ---------------------------------------------------------------- what a tick leaves */

  lemma NewestRises(q: seq<Chunk>, lo: nat, hi: nat)
    requires Rising(q, lo, hi)
    ensures Rising(Newest(q), lo, hi)
  {
    if |q| > SLOTS {
      RisingDrop(q, lo, hi, |q| - SLOTS);
    }
  }

  lemma {:induction false} PendingAppend(a: seq<Chunk>, b: seq<Chunk>, t: nat)
    ensures Pending(a + b, t) == Pending(a, t) + Pending(b, t)
    decreases |a|
  {
    if a == [] {
      assert a + b == b;
    } else {
      assert (a + b)[0] == a[0] && (a + b)[1..] == a[1..] + b;
      PendingAppend(a[1..], b, t);
    }
  }

  lemma {:induction false} AllPending(q: seq<Chunk>, t: nat)
    requires forall c :: c in q ==> c.due > t
    ensures Pending(q, t) == q
    decreases |q|
  {
    if q != [] {
      AllPending(q[1..], t);
      assert q == [q[0]] + q[1..];
    }
  }

  lemma {:induction false} NonePending(q: seq<Chunk>, t: nat)
    requires forall c :: c in q ==> c.due <= t
    ensures Pending(q, t) == []
    decreases |q|
  {
    if q != [] {
      NonePending(q[1..], t);
    }
  }

  lemma {:induction false} PendingTwice(q: seq<Chunk>, t: nat, u: nat)
    requires t <= u
    ensures Pending(Pending(q, t), u) == Pending(q, u)
    decreases |q|
  {
    if q != [] {
      var later := Pending(q[1..], t);
      PendingTwice(q[1..], t, u);
      if q[0].due > t {
        assert ([q[0]] + later)[1..] == later;
      } else {
        assert [] + later == later;
      }
    }
  }

  lemma {:induction false} PendingShrinks(q: seq<Chunk>, t: nat)
    ensures |Pending(q, t)| <= |q|
    ensures forall c :: c in Pending(q, t) <==> c in q && c.due > t
    decreases |q|
  {
    if q != [] {
      PendingShrinks(q[1..], t);
      assert q == [q[0]] + q[1..];
    }
  }

  lemma {:induction false} PendingRises(q: seq<Chunk>, t: nat, lo: nat, hi: nat)
    requires Rising(q, lo, hi)
    ensures Rising(Pending(q, t), lo, hi)
    decreases |q|
  {
    if q != [] {
      var later := Pending(q[1..], t);
      PendingRises(q[1..], t, q[0].due, hi);
      if q[0].due > t {
        assert ([q[0]] + later)[1..] == later;
      } else {
        assert [] + later == later;
        RisingWider(later, q[0].due, hi, lo, hi);
      }
    }
  }

  /** In an ordered queue overwriting and releasing commute: both take from the front. */
  lemma {:induction false} PendingOfNewest(q: seq<Chunk>, t: nat, lo: nat, hi: nat)
    requires Rising(q, lo, hi)
    ensures Pending(Newest(q), t) == Newest(Pending(q, t))
    decreases |q|
  {
    if |q| <= SLOTS {
      PendingShrinks(q, t);
    } else if q[0].due > t {
      RisingBounds(q[1..], q[0].due, hi);
      assert forall c :: c in q ==> c == q[0] || c in q[1..];
      AllPending(q, t);
      assert forall c :: c in Newest(q) ==> c in q;
      AllPending(Newest(q), t);
    } else {
      PendingOfNewest(q[1..], t, q[0].due, hi);
      assert [] + Pending(q[1..], t) == Pending(q[1..], t);
      assert Newest(q[1..]) == Newest(q);
    }
  }

  /** A tick leaves exactly the frames of an ordered ring that are still to come. */
  lemma {:induction false} TickLeavesPending(o: Out, t: nat, lo: nat, hi: nat)
    requires Rising(o.ring, lo, hi)
    ensures Release(o, t).out.ring == Pending(o.ring, t)
    decreases |o.ring|
  {
    if o.ring != [] {
      if o.ring[0].due > t {
        RisingBounds(o.ring[1..], o.ring[0].due, hi);
        assert forall c :: c in o.ring ==> c == o.ring[0] || c in o.ring[1..];
        AllPending(o.ring, t);
      } else {
        TickLeavesPending(ReleaseOne(o).out, t, o.ring[0].due, hi);
        assert [] + Pending(o.ring[1..], t) == Pending(o.ring[1..], t);
      }
    }
  }

  /** Of a queue in two parts, a tick between them leaves the newest of the second. */
  lemma TickBetween(o: Out, gone: seq<Chunk>, later: seq<Chunk>, t: nat, hi: nat)
    requires Rising(gone + later, 0, hi) && o.ring == Newest(gone + later)
    requires forall c :: c in gone ==> c.due <= t
    requires forall c :: c in later ==> c.due > t
    ensures Release(o, t).out.ring == Newest(later)
  {
    NonePending(gone, t);
    AllPending(later, t);
    PendingAppend(gone, later, t);
    assert [] + later == later;
    PendingOfNewest(gone + later, t, 0, hi);
    NewestRises(gone + later, 0, hi);
    TickLeavesPending(o, t, 0, hi);
  }

  lemma TickAmongSlots(o: Out, before: seq<Chunk>, last: nat, start: nat, items: seq<Timed>, k: nat, t: nat)
    requires o.ring == Newest(before + Slots(start, items, 0)) && Rising(before, 0, last) && last <= start
    requires k <= |items| && start + Before(items, k) <= t && (k < |items| ==> t < start + Before(items, k + 1))
    ensures Release(o, t).out.ring == Newest(Slots(start, items, k))
  {
    var done := EarlierSlots(start, items, 0, k);
    LaterSlots(start, items, k, t);
    RisingBounds(before, 0, last);
    SlotsFollow(before, last, start, items);
    Assoc(before, done, Slots(start, items, k));
    TickBetween(o, before + done, Slots(start, items, k), t, start + Before(items, |items|));
  }

  /**
   A tick at time t has released exactly the packets of a transfer whose cumulative air time has elapsed:
   if the first k are over and the next is not, packets k and later wait, and everything before is gone.
   */
  lemma TickReleasesElapsed(p: Path, now: nat, maxPacket: nat, buffer: seq<byte>, ps: seq<Iso>, k: nat, t: nat)
    requires InOrder(p.out.ring, p.nextFree) && |p.out.ring| <= SLOTS
    requires k <= |ps|
    requires Max(p.nextFree, now) + Before(TimedOf(maxPacket, buffer, ps), k) <= t
    requires k < |ps| ==> t < Max(p.nextFree, now) + Before(TimedOf(maxPacket, buffer, ps), k + 1)
    ensures Release(AcceptOut(p, now, maxPacket, buffer, ps).out, t).out.ring
            == Newest(Slots(Max(p.nextFree, now), TimedOf(maxPacket, buffer, ps), k))
  {
    TransferSlots(p, now, maxPacket, buffer, ps);
    InOrderRises(p.out.ring, 0, p.nextFree);
    TickAmongSlots(AcceptOut(p, now, maxPacket, buffer, ps).out, p.out.ring, p.nextFree, Max(p.nextFree, now),
                   TimedOf(maxPacket, buffer, ps), k, t);
  }

  /* ---------------------------------------------------------------- runs */

  /** Everything scheduled since the last flush, in order, with its due time. */
  function Agenda(p: Path, agenda: seq<Chunk>, op: PathOp): seq<Chunk> {
    match op
    case Submit(now, maxPacket, buffer, packets) =>
      agenda + Slots(Max(p.nextFree, now), TimedOf(maxPacket, buffer, packets), 0)
    case Tick(_) => agenda
    case Flush => []
  }

  function AgendaOf(p: Path, agenda: seq<Chunk>, ops: seq<PathOp>): seq<Chunk>
    decreases |ops|
  {
    if ops == [] then agenda else AgendaOf(Apply(p, ops[0]), Agenda(p, agenda, ops[0]), ops[1..])
  }

  /** The time of the last tick, t if there was none. */
  function LastTick(t: nat, ops: seq<PathOp>): nat
    decreases |ops|
  {
    if ops == [] then t else LastTick(if ops[0].Tick? then ops[0].now else t, ops[1..])
  }

  /** The interrupt time the driver reads never goes back. */
  predicate Onward(t: nat, ops: seq<PathOp>)
    decreases |ops|
  {
    ops == [] || (if ops[0].Flush? then Onward(t, ops[1..]) else t <= ops[0].now && Onward(ops[0].now, ops[1..]))
  }

  predicate OnTime(p: Path, agenda: seq<Chunk>, t: nat) {
    p.out.ring == Newest(Pending(agenda, t)) && Rising(agenda, 0, p.nextFree)
  }

  lemma NewestPending(agenda: seq<Chunk>, later: seq<Chunk>, t: nat)
    requires forall c :: c in later ==> c.due > t
    ensures Newest(Newest(Pending(agenda, t)) + later) == Newest(Pending(agenda + later, t))
  {
    PendingAppend(agenda, later, t);
    AllPending(later, t);
    NewestAgain(Pending(agenda, t), later);
  }

  lemma SlotsJoinAgenda(p: Path, x: Path, agenda: seq<Chunk>, t: nat, start: nat, items: seq<Timed>)
    requires OnTime(p, agenda, t) && p.nextFree <= start
    requires forall c :: c in Slots(start, items, 0) ==> c.due > t
    requires x.out.ring == Newest(p.out.ring + Slots(start, items, 0))
    requires x.nextFree == start + Before(items, |items|)
    ensures OnTime(x, agenda + Slots(start, items, 0), t)
  {
    SlotsFollow(agenda, p.nextFree, start, items);
    NewestPending(agenda, Slots(start, items, 0), t);
  }

  lemma SubmitKeepsTime(p: Path, agenda: seq<Chunk>, t: nat, op: PathOp)
    requires OnTime(p, agenda, t) && op.Submit? && t <= op.now
    ensures OnTime(Apply(p, op), Agenda(p, agenda, op), t)
  {
    var start, items := Max(p.nextFree, op.now), TimedOf(op.maxPacket, op.buffer, op.packets);
    AcceptQueues(p, op.now, op.maxPacket, op.buffer, op.packets);
    TransferSlots(p, op.now, op.maxPacket, op.buffer, op.packets);
    SlotsAfterStart(start, op.maxPacket, op.buffer, op.packets);
    SlotsJoinAgenda(p, Apply(p, op), agenda, t, start, items);
  }

  lemma TickKeepsTime(p: Path, agenda: seq<Chunk>, t: nat, now: nat)
    requires OnTime(p, agenda, t) && t <= now
    ensures OnTime(Apply(p, Tick(now)), agenda, now)
  {
    var pending := Pending(agenda, t);
    PendingRises(agenda, t, 0, p.nextFree);
    NewestRises(pending, 0, p.nextFree);
    TickLeavesPending(p.out, now, 0, p.nextFree);
    PendingOfNewest(pending, now, 0, p.nextFree);
    PendingTwice(agenda, t, now);
  }

  lemma {:induction false} OnwardTime(p: Path, agenda: seq<Chunk>, t: nat, now: nat, ops: seq<PathOp>)
    requires OnTime(p, agenda, t) && t <= now && Onward(now, ops)
    ensures OnTime(ApplyAll(p, ops), AgendaOf(p, agenda, ops), LastTick(t, ops))
    decreases |ops|
  {
    if ops != [] {
      match ops[0] {
        case Submit(at, _, _, _) =>
          SubmitKeepsTime(p, agenda, t, ops[0]);
          OnwardTime(Apply(p, ops[0]), Agenda(p, agenda, ops[0]), t, at, ops[1..]);
        case Tick(at) =>
          TickKeepsTime(p, agenda, t, at);
          OnwardTime(Apply(p, ops[0]), agenda, at, at, ops[1..]);
        case Flush =>
          OnwardTime(Apply(p, ops[0]), [], t, now, ops[1..]);
      }
    }
  }

  /**
   Every frame leaves at the end of its own slot. In any run of transfers, ticks and flushes on a clock that
   never goes back, the ring holds exactly the newest 128 of the frames scheduled since the last flush
   whose packet's slot ends after the last tick.
   */
  lemma EveryFrameOnTime(ops: seq<PathOp>)
    requires Onward(0, ops)
    ensures var start := Path(NEW, 0);
            ApplyAll(start, ops).out.ring == Newest(Pending(AgendaOf(start, [], ops), LastTick(0, ops)))
  {
    OnwardTime(Path(NEW, 0), [], 0, 0, ops);
  }
}
