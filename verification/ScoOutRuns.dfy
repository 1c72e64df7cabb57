/**
 Whole runs of the host-to-controller voice ring: what any interleaving of pushes and releases hands
 to the controller, with and without overflow.
 */
module ScoOutRuns {
  import opened Bytes
  import opened ScoPacket
  import opened ScoOutSpec

  /** A frame that has left the ring: released at its time, or overwritten before it. */
  datatype Gone = Gone(data: seq<byte>, lost: bool)

  datatype Replayed = Replayed(core: Core, sent: seq<seq<byte>>)

  datatype Op = PushOp(due: nat, data: seq<byte>) | ReleaseOp(now: nat)

  datatype Trace = Trace(out: Out, sent: seq<seq<byte>>, log: seq<Gone>)

  function Datas(log: seq<Gone>): (ds: seq<seq<byte>>)
    ensures |ds| == |log|
    ensures forall i :: 0 <= i < |log| ==> ds[i] == log[i].data
  {
    seq(|log|, i requires 0 <= i < |log| => log[i].data)
  }

  function Queued(ring: seq<Chunk>): (ds: seq<seq<byte>>)
    ensures |ds| == |ring|
    ensures forall i :: 0 <= i < |ring| ==> ds[i] == ring[i].data
  {
    seq(|ring|, i requires 0 <= i < |ring| => ring[i].data)
  }

  function Losses(log: seq<Gone>): nat {
    if log == [] then 0 else (if log[0].lost then 1 else 0) + Losses(log[1..])
  }

  predicate Intact(log: seq<Gone>) {
    forall i :: 0 <= i < |log| ==> !log[i].lost
  }

  /** Reassembly driven only by the order and fate of the frames that left the ring. */
  function Replay(c: Core, log: seq<Gone>): Replayed
    decreases |log|
  {
    if log == [] then Replayed(c, [])
    else if log[0].lost then Replay(Lose(c), log[1..])
    else
      var t := Take(c, log[0].data);
      var r := Replay(t.core, log[1..]);
      Replayed(r.core, t.sent + r.sent)
  }

  /* ---------------------------------------------------------------- runs of the ring */

  function PushLog(o: Out, due: nat, fs: seq<seq<byte>>): seq<Gone>
    decreases |fs|
  {
    if fs == [] then []
    else
      (if |o.ring| >= SLOTS then [Gone(o.ring[0].data, true)] else [])
      + PushLog(PushChunk(o, Chunk(due, fs[0])), due, fs[1..])
  }

  function ReleaseLog(o: Out, now: nat): seq<Gone>
    decreases |o.ring|
  {
    if o.ring == [] || o.ring[0].due > now then []
    else [Gone(o.ring[0].data, false)] + ReleaseLog(ReleaseOne(o).out, now)
  }

  function Step(o: Out, op: Op): Trace {
    match op
    case PushOp(due, data) => Trace(Push(o, due, data), [], PushLog(o, due, Frames(data)))
    case ReleaseOp(now) => var r := Release(o, now); Trace(r.out, r.sent, ReleaseLog(o, now))
  }

  function RunOps(o: Out, ops: seq<Op>): Trace
    decreases |ops|
  {
    if ops == [] then Trace(o, [], [])
    else
      var a := Step(o, ops[0]);
      var b := RunOps(a.out, ops[1..]);
      Trace(b.out, a.sent + b.sent, a.log + b.log)
  }

  function Pushed(op: Op): seq<seq<byte>> {
    if op.PushOp? then Frames(op.data) else []
  }

  /** Every frame the host queued during a run, in order. */
  function Offered(ops: seq<Op>): seq<seq<byte>> {
    if ops == [] then [] else Pushed(ops[0]) + Offered(ops[1..])
  }

  /** A trace explains its run: frames leave in order, and reassembly saw exactly them. */
  ghost predicate Explains(o: Out, offered: seq<seq<byte>>, t: Trace) {
    && Datas(t.log) + Queued(t.out.ring) == Queued(o.ring) + offered
    && Replay(o.core, t.log) == Replayed(t.out.core, t.sent)
    && t.out.drops == o.drops + Losses(t.log)
    && t.out.emitted == o.emitted + |t.sent|
    && (|o.ring| <= SLOTS ==> |t.out.ring| <= SLOTS)
  }

  lemma {:induction false} ReplayAppend(c: Core, a: seq<Gone>, b: seq<Gone>)
    ensures var r := Replay(c, a);
            var s := Replay(r.core, b);
            Replay(c, a + b) == Replayed(s.core, r.sent + s.sent)
    decreases |a|
  {
    if a == [] {
      assert a + b == b;
    } else {
      assert (a + b)[1..] == a[1..] + b;
      if a[0].lost {
        ReplayAppend(Lose(c), a[1..], b);
      } else {
        ReplayAppend(Take(c, a[0].data).core, a[1..], b);
      }
    }
  }

  lemma {:induction false} LossesAppend(a: seq<Gone>, b: seq<Gone>)
    ensures Losses(a + b) == Losses(a) + Losses(b)
    decreases |a|
  {
    if a == [] {
      assert a + b == b;
    } else {
      assert (a + b)[1..] == a[1..] + b;
      LossesAppend(a[1..], b);
    }
  }

  lemma QueueAppend<T>(q: seq<T>, x: seq<T>, a: seq<T>, r: seq<T>, y: seq<T>, b: seq<T>, s: seq<T>)
    requires a + r == q + x && b + s == r + y
    ensures (a + b) + s == q + (x + y)
  {
    Assoc(a, b, s);
    Assoc(a, r, y);
    Assoc(q, x, y);
  }

  /** Two explained runs in a row are explained. */
  lemma ExplainsAppend(o: Out, x: seq<seq<byte>>, a: Trace, y: seq<seq<byte>>, b: Trace)
    requires Explains(o, x, a) && Explains(a.out, y, b)
    ensures Explains(o, x + y, Trace(b.out, a.sent + b.sent, a.log + b.log))
  {
    ReplayAppend(o.core, a.log, b.log);
    LossesAppend(a.log, b.log);
    assert Datas(a.log + b.log) == Datas(a.log) + Datas(b.log);
    QueueAppend(Queued(o.ring), x, Datas(a.log), Queued(a.out.ring), y, Datas(b.log), Queued(b.out.ring));
  }

  lemma PushChunkExplained(o: Out, c: Chunk)
    ensures var log := if |o.ring| >= SLOTS then [Gone(o.ring[0].data, true)] else [];
            Explains(o, [c.data], Trace(PushChunk(o, c), [], log))
  {
  }

  lemma {:induction false} PushExplained(o: Out, due: nat, fs: seq<seq<byte>>)
    ensures Explains(o, fs, Trace(PushFrames(o, due, fs), [], PushLog(o, due, fs)))
    decreases |fs|
  {
    if fs != [] {
      var c := Chunk(due, fs[0]);
      var log := if |o.ring| >= SLOTS then [Gone(o.ring[0].data, true)] else [];
      var o' := PushChunk(o, c);
      PushChunkExplained(o, c);
      PushExplained(o', due, fs[1..]);
      ExplainsAppend(o, [c.data], Trace(o', [], log), fs[1..],
                     Trace(PushFrames(o', due, fs[1..]), [], PushLog(o', due, fs[1..])));
      assert [c.data] + fs[1..] == fs;
    }
  }

  lemma ReleaseOneExplained(o: Out)
    requires o.ring != []
    ensures var one := ReleaseOne(o);
            Explains(o, [], Trace(one.out, one.sent, [Gone(o.ring[0].data, false)]))
  {
  }

  lemma {:induction false} ReleaseExplained(o: Out, now: nat)
    ensures var r := Release(o, now);
            Explains(o, [], Trace(r.out, r.sent, ReleaseLog(o, now)))
    decreases |o.ring|
  {
    if o.ring != [] && o.ring[0].due <= now {
      var one := ReleaseOne(o);
      var r := Release(one.out, now);
      ReleaseOneExplained(o);
      ReleaseExplained(one.out, now);
      ExplainsAppend(o, [], Trace(one.out, one.sent, [Gone(o.ring[0].data, false)]),
                     [], Trace(r.out, r.sent, ReleaseLog(one.out, now)));
    }
  }

  /**
   Any interleaving of pushes and releases: frames leave first in, first out, none is invented, each
   leaves once, and the packets sent are those of reassembling the frames that left, in that order.
   */
  lemma {:induction false} RunExplained(o: Out, ops: seq<Op>)
    ensures Explains(o, Offered(ops), RunOps(o, ops))
    decreases |ops|
  {
    if ops != [] {
      var a := Step(o, ops[0]);
      match ops[0] {
        case PushOp(due, data) => PushExplained(o, due, Frames(data));
        case ReleaseOp(now) => ReleaseExplained(o, now);
      }
      RunExplained(a.out, ops[1..]);
      ExplainsAppend(o, Pushed(ops[0]), a, Offered(ops[1..]), RunOps(a.out, ops[1..]));
    }
  }

  /* ---------------------------------------------------------------- without loss */

  lemma {:induction false} ReplayIntact(c: Core, log: seq<Gone>)
    requires Intact(log) && !c.resync
    ensures var r := Replay(c, log);
            && Split(r.core.part, r.sent) == Absorb(c.part, Concat(Datas(log)))
            && !r.core.resync
    decreases |log|
  {
    if log == [] {
      assert Datas(log) == [];
    } else {
      var d := log[0].data;
      assert Datas(log)[1..] == Datas(log[1..]);
      AbsorbAppend(c.part, d, Concat(Datas(log[1..])));
      ReplayIntact(Take(c, d).core, log[1..]);
    }
  }

  lemma {:induction false} NoLossIsIntact(log: seq<Gone>)
    ensures Losses(log) == 0 <==> Intact(log)
    decreases |log|
  {
    if log != [] {
      NoLossIsIntact(log[1..]);
      assert log == [log[0]] + log[1..];
    }
  }

  /**
   With no overflow, a stream of well-formed packets reaches the controller exactly, however the host
   cut it into isochronous packets and whenever they were released.
   */
  lemma StreamRecovered(o: Out, ops: seq<Op>, packets: seq<seq<byte>>, tail: seq<byte>)
    requires o.ring == [] && o.core.part == [] && !o.core.resync
    requires forall i :: 0 <= i < |packets| ==> WellFormed(packets[i])
    requires Partial(tail)
    requires Concat(Offered(ops)) == Concat(packets) + tail
    requires RunOps(o, ops).out.ring == []
    requires RunOps(o, ops).out.drops == o.drops
    ensures RunOps(o, ops).sent == packets
    ensures RunOps(o, ops).out.core.part == tail
  {
    var t := RunOps(o, ops);
    RunExplained(o, ops);
    NoLossIsIntact(t.log);
    ReplayIntact(o.core, t.log);
    assert Datas(t.log) == Datas(t.log) + Queued(t.out.ring) == Queued(o.ring) + Offered(ops) == Offered(ops);
    AbsorbRecovers(packets, tail);
  }

  /* ---------------------------------------------------------------- with overflow */

  /** A packet of handle h cut into frames: the first opens with h, no later one looks as if it did. */
  ghost predicate CutPacket(h: nat, p: seq<seq<byte>>) {
    && p != []
    && WellFormed(Concat(p))
    && Startable(h, p[0])
    && forall i :: 0 < i < |p| ==> p[i] != [] && !Startable(h, p[i])
  }

  lemma ConcatGrows(ds: seq<seq<byte>>)
    ensures ds != [] && ds[0] != [] ==> Concat(ds) != []
  {
  }

  lemma PrefixStaysPartial(done: seq<byte>, more: seq<byte>)
    requires WellFormed(done + more) && more != []
    ensures Partial(done)
  {
  }

  lemma Regroup(done: seq<byte>, d: seq<byte>, later: seq<byte>, more: seq<byte>)
    ensures done + (d + later) == done + d + later
    ensures done + (d + later) + more == (done + d) + (later + more)
  {
  }

  /**
   Inside one packet: done is what the frames already gone contributed, rest the frames that leave
   next, more the bytes still to come. The packet is sent only when every frame was released.
   */
  lemma {:induction false} Inside(c: Core, h: nat, intact: bool, done: seq<byte>, rest: seq<Gone>, more: seq<byte>)
    requires h < 0x1000
    requires forall i :: 0 <= i < |rest| ==> rest[i].data != [] && !Startable(h, rest[i].data)
    requires WellFormed(done + Concat(Datas(rest)) + more)
    requires HandleOf(done + Concat(Datas(rest)) + more) == h
    requires intact ==> Partial(done) && (rest != [] || more != [])
    requires c == if intact then Core(done, false, h) else Core([], true, h)
    ensures var r := Replay(c, rest);
            && r.core.last == h
            && (more == [] ==> r.core.part == [])
            && r.sent == if intact && Intact(rest) && more == [] then [done + Concat(Datas(rest))] else []
    decreases |rest|
  {
    if rest == [] {
      assert Datas(rest) == [];
    } else {
      var d := rest[0].data;
      var later := Concat(Datas(rest[1..])) + more;
      assert Datas(rest)[1..] == Datas(rest[1..]);
      assert Concat(Datas(rest)) == d + Concat(Datas(rest[1..]));
      Regroup(done, d, Concat(Datas(rest[1..])), more);
      if rest[0].lost || !intact {
        Inside(Core([], true, h), h, false, done + d, rest[1..], more);
      } else if later == [] {
        ConcatGrows(Datas(rest[1..]));
        assert (done + d) + later == done + d;
        AbsorbFinishes(done, d);
        assert Replay(Core([], false, h), rest[1..]) == Replayed(Core([], false, h), []);
      } else {
        PrefixStaysPartial(done + d, later);
        AbsorbKeeps(done, d);
        assert rest[1..] == [] ==> Datas(rest[1..]) == [];
        Inside(Core(done + d, false, h), h, true, done + d, rest[1..], more);
      }
    }
  }

  /** The first frames of one packet, released or lost, from a packet boundary. */
  lemma OnePacket(c: Core, h: nat, log: seq<Gone>, more: seq<seq<byte>>)
    requires h < 0x1000 && c.part == [] && c.last == h
    requires CutPacket(h, Datas(log) + more)
    requires log != []
    ensures var r := Replay(c, log);
            && r.core.last == h
            && (more == [] ==> r.core.part == [])
            && r.sent == if Intact(log) && more == [] then [Concat(Datas(log))] else []
  {
    var p := Datas(log) + more;
    ConcatAppend(Datas(log), more);
    ConcatGrows(more);
    assert more != [] ==> p[|log|] == more[0];
    forall i | 0 < i < |log| ensures log[i].data != [] && !Startable(h, log[i].data) {
      assert p[i] == log[i].data;
    }
    assert p[0] == log[0].data;
    assert HandleOf(Concat(p)) == h;
    FirstFrame(c, h, log, Concat(more));
  }

  lemma TakeWhole(c: Core, h: nat, d: seq<byte>)
    requires h < 0x1000 && c.part == [] && c.last == h
    requires Startable(h, d) && WellFormed(d)
    ensures Take(c, d) == Taken(Core([], false, h), [d], false)
  {
    assert [] + d == d;
    AbsorbFinishes([], d);
  }

  lemma TakeStart(c: Core, h: nat, d: seq<byte>)
    requires h < 0x1000 && c.part == [] && c.last == h
    requires Startable(h, d) && Partial(d)
    ensures Take(c, d) == Taken(Core(d, false, h), [], false)
  {
    assert [] + d == d;
    AbsorbKeeps([], d);
  }

  /** The first frame and the rest of a log, in bytes. */
  lemma FirstAndRest(log: seq<Gone>, missing: seq<byte>)
    requires log != []
    ensures Concat(Datas(log)) == log[0].data + Concat(Datas(log[1..]))
    ensures Concat(Datas(log)) + missing == log[0].data + (Concat(Datas(log[1..])) + missing)
    ensures |log| > 1 && log[1].data != [] ==> Concat(Datas(log[1..])) != []
  {
    assert Datas(log)[1..] == Datas(log[1..]);
    Assoc(log[0].data, Concat(Datas(log[1..])), missing);
    ConcatGrows(Datas(log[1..]));
  }

  /** The rest of a packet whose first frame was overwritten is skipped. */
  lemma FirstFrameLost(c: Core, h: nat, log: seq<Gone>, missing: seq<byte>)
    requires h < 0x1000 && c.last == h && log != [] && log[0].lost
    requires forall i :: 0 < i < |log| ==> log[i].data != [] && !Startable(h, log[i].data)
    requires WellFormed(Concat(Datas(log)) + missing) && HandleOf(Concat(Datas(log)) + missing) == h
    ensures var r := Replay(c, log); r.core.last == h && (missing == [] ==> r.core.part == []) && r.sent == []
  {
    FirstAndRest(log, missing);
    Assoc(log[0].data, Concat(Datas(log[1..])), missing);
    Inside(Core([], true, h), h, false, log[0].data, log[1..], missing);
  }

  /** A packet of one frame is sent as it is released. */
  lemma FirstFrameWhole(c: Core, h: nat, log: seq<Gone>)
    requires h < 0x1000 && c.part == [] && c.last == h
    requires |log| == 1 && !log[0].lost && Startable(h, log[0].data) && WellFormed(log[0].data)
    ensures Replay(c, log) == Replayed(Core([], false, h), [log[0].data])
  {
    TakeWhole(c, h, log[0].data);
    assert Replay(Core([], false, h), log[1..]) == Replayed(Core([], false, h), []);
    assert [log[0].data] + [] == [log[0].data];
  }

  /** Otherwise the first frame starts the packet and the rest decides. */
  lemma FirstFrameStarts(c: Core, h: nat, log: seq<Gone>, missing: seq<byte>)
    requires h < 0x1000 && c.part == [] && c.last == h
    requires log != [] && !log[0].lost && Startable(h, log[0].data)
    requires |log| > 1 || missing != []
    requires forall i :: 0 < i < |log| ==> log[i].data != [] && !Startable(h, log[i].data)
    requires WellFormed(Concat(Datas(log)) + missing) && HandleOf(Concat(Datas(log)) + missing) == h
    ensures var r := Replay(c, log);
            && r.core.last == h
            && (missing == [] ==> r.core.part == [])
            && r.sent == if Intact(log[1..]) && missing == [] then [Concat(Datas(log))] else []
  {
    var d := log[0].data;
    FirstAndRest(log, missing);
    Assoc(d, Concat(Datas(log[1..])), missing);
    PrefixStaysPartial(d, Concat(Datas(log[1..])) + missing);
    TakeStart(c, h, d);
    Inside(Core(d, false, h), h, true, d, log[1..], missing);
  }

  lemma FirstFrame(c: Core, h: nat, log: seq<Gone>, missing: seq<byte>)
    requires h < 0x1000 && c.part == [] && c.last == h
    requires log != [] && Startable(h, log[0].data)
    requires forall i :: 0 < i < |log| ==> log[i].data != [] && !Startable(h, log[i].data)
    requires WellFormed(Concat(Datas(log)) + missing) && HandleOf(Concat(Datas(log)) + missing) == h
    ensures var r := Replay(c, log);
            && r.core.last == h
            && (missing == [] ==> r.core.part == [])
            && r.sent == if Intact(log) && missing == [] then [Concat(Datas(log))] else []
  {
    assert log == [log[0]] + log[1..];
    if log[0].lost {
      FirstFrameLost(c, h, log, missing);
    } else if |log| == 1 && missing == [] {
      FirstAndRest(log, missing);
      assert log[0].data + [] + [] == log[0].data;
      FirstFrameWhole(c, h, log);
    } else {
      FirstFrameStarts(c, h, log, missing);
    }
  }

  /** The packets that survive: of those whose frames have all left, the ones that lost none. */
  function Survivors(cuts: seq<seq<seq<byte>>>, log: seq<Gone>): seq<seq<byte>>
    decreases |cuts|
  {
    if cuts == [] || |log| < |cuts[0]| then []
    else
      (if Intact(log[..|cuts[0]|]) then [Concat(cuts[0])] else [])
      + Survivors(cuts[1..], log[|cuts[0]|..])
  }

  /** How many packets have had all their frames leave the ring. */
  function WholeGone(cuts: seq<seq<seq<byte>>>, gone: nat): nat
    decreases |cuts|
  {
    if cuts == [] || gone < |cuts[0]| then 0 else 1 + WholeGone(cuts[1..], gone - |cuts[0]|)
  }

  lemma DatasSplit(log: seq<Gone>, n: nat)
    requires n <= |log|
    ensures Datas(log[..n]) == Datas(log)[..n] && Datas(log[n..]) == Datas(log)[n..]
  {
  }

  /** A prefix of two parts ends in the first or reaches into the second. */
  lemma PrefixCases<T>(ds: seq<T>, a: seq<T>, b: seq<T>)
    requires ds <= a + b
    ensures |ds| < |a| ==> ds + a[|ds|..] == a
    ensures |ds| >= |a| ==> ds[..|a|] == a && ds[|a|..] <= b
  {
  }

  lemma WholePacket(c: Core, h: nat, p: seq<seq<byte>>, log: seq<Gone>)
    requires h < 0x1000 && c.part == [] && c.last == h
    requires CutPacket(h, p) && Datas(log) == p
    ensures var r := Replay(c, log);
            && r.core.last == h && r.core.part == []
            && r.sent == if Intact(log) then [Concat(p)] else []
  {
    assert Datas(log) + [] == p;
    OnePacket(c, h, log, []);
  }

  lemma SurvivorsCons(cuts: seq<seq<seq<byte>>>, a: seq<Gone>, b: seq<Gone>)
    requires cuts != [] && |a| == |cuts[0]|
    ensures Survivors(cuts, a + b)
            == (if Intact(a) then [Concat(cuts[0])] else []) + Survivors(cuts[1..], b)
  {
  }

  lemma {:induction false} ReplaySurvivors(c: Core, h: nat, cuts: seq<seq<seq<byte>>>, log: seq<Gone>)
    requires h < 0x1000 && c.part == [] && c.last == h
    requires forall i :: 0 <= i < |cuts| ==> CutPacket(h, cuts[i])
    requires Datas(log) <= Concat(cuts)
    ensures Replay(c, log).sent == Survivors(cuts, log)
    decreases |cuts|
  {
    if cuts == [] {
      assert |log| == |Datas(log)| == 0;
    } else if log != [] {
      var first, n := cuts[0], |cuts[0]|;
      PrefixCases(Datas(log), first, Concat(cuts[1..]));
      if |log| < n {
        OnePacket(c, h, log, first[|log|..]);
      } else {
        var a, b := log[..n], log[n..];
        DatasSplit(log, n);
        WholePacket(c, h, first, a);
        ReplaySurvivors(Replay(c, a).core, h, cuts[1..], b);
        ReplayAppend(c, a, b);
        SurvivorsCons(cuts, a, b);
        assert log == a + b;
      }
    }
  }

  lemma {:induction false} MissingAreLosses(cuts: seq<seq<seq<byte>>>, log: seq<Gone>)
    ensures |Survivors(cuts, log)| <= WholeGone(cuts, |log|) <= |Survivors(cuts, log)| + Losses(log)
    decreases |cuts|
  {
    if cuts != [] && |cuts[0]| <= |log| {
      var n := |cuts[0]|;
      MissingAreLosses(cuts[1..], log[n..]);
      NoLossIsIntact(log[..n]);
      LossesAppend(log[..n], log[n..]);
      assert log == log[..n] + log[n..];
    }
  }

  lemma DatasAppend(a: seq<Gone>, b: seq<Gone>)
    ensures Datas(a + b) == Datas(a) + Datas(b)
  {
  }

  lemma PrefixOfParts<T>(a: seq<T>, b: seq<T>, c: seq<T>, all: seq<T>)
    requires a + (b + c) <= all
    ensures a + b <= all
  {
    Assoc(a, b, c);
  }

  /**
   Overflow never damages the stream, seen from any moment of it. The framer has been at a packet boundary with
   the handle known, past is what has left the ring since, and more may wait in the ring. Then for every
   interleaving of pushes and releases what it has sent and sends is exactly those original packets, whole and
   in order, none of whose frames was overwritten; the packets missing are at most the frames lost.
   */
  lemma OverflowAnyMoment(o: Out, ops: seq<Op>, h: nat, cuts: seq<seq<seq<byte>>>, start: Core, past: seq<Gone>)
    requires start.part == [] && start.last == h && h < 0x1000 && o.core == Replay(start, past).core
    requires forall i :: 0 <= i < |cuts| ==> CutPacket(h, cuts[i])
    requires Datas(past) + (Queued(o.ring) + Offered(ops)) <= Concat(cuts)
    ensures var t := RunOps(o, ops);
            var log, sent := past + t.log, Replay(start, past).sent + t.sent;
            && Datas(t.log) + Queued(t.out.ring) == Queued(o.ring) + Offered(ops)
            && sent == Survivors(cuts, log)
            && Losses(t.log) == t.out.drops - o.drops
            && WholeGone(cuts, |log|) - |sent| <= Losses(past) + t.out.drops - o.drops
  {
    var t := RunOps(o, ops);
    RunExplained(o, ops);
    ReplayAppend(start, past, t.log);
    DatasAppend(past, t.log);
    PrefixOfParts(Datas(past), Datas(t.log), Queued(t.out.ring), Concat(cuts));
    ReplaySurvivors(start, h, cuts, past + t.log);
    MissingAreLosses(cuts, past + t.log);
    LossesAppend(past, t.log);
  }

  /** In particular from a packet boundary, whatever already waits in the ring. */
  lemma OverflowIsSafe(o: Out, ops: seq<Op>, h: nat, cuts: seq<seq<seq<byte>>>)
    requires o.core.part == [] && o.core.last == h && h < 0x1000
    requires forall i :: 0 <= i < |cuts| ==> CutPacket(h, cuts[i])
    requires Queued(o.ring) + Offered(ops) <= Concat(cuts)
    ensures var t := RunOps(o, ops);
            && Datas(t.log) + Queued(t.out.ring) == Queued(o.ring) + Offered(ops)
            && t.sent == Survivors(cuts, t.log)
            && Losses(t.log) == t.out.drops - o.drops
            && WholeGone(cuts, |t.log|) - |t.sent| <= t.out.drops - o.drops
  {
    var t := RunOps(o, ops);
    assert Datas([]) + (Queued(o.ring) + Offered(ops)) == Queued(o.ring) + Offered(ops);
    OverflowAnyMoment(o, ops, h, cuts, o.core, []);
    assert [] + t.log == t.log && [] + t.sent == t.sent;
  }

  /* ---------------------------------------------------------------- the limit of the resync rule */

  function Kept(ds: seq<seq<byte>>): (log: seq<Gone>)
    ensures |log| == |ds|
    ensures forall i :: 0 <= i < |ds| ==> log[i] == Gone(ds[i], false)
  {
    seq(|ds|, i requires 0 <= i < |ds| => Gone(ds[i], false))
  }

  lemma {:induction false} ResyncEnds(c: Core, log: seq<Gone>)
    requires !c.resync && Intact(log)
    ensures !Replay(c, log).core.resync
    decreases |log|
  {
    if log != [] {
      ResyncEnds(Take(c, log[0].data).core, log[1..]);
    }
  }

  /**
   Exactly when the headless rest of a damaged packet is discarded: a handle must have been seen, and no
   frame of the rest may open with the last one. With none seen yet every frame qualifies.
   */
  lemma {:induction false} HeadlessRestSkipped(last: nat, ds: seq<seq<byte>>)
    ensures Replay(Core([], true, last), Kept(ds)) == Replayed(Core([], true, last), [])
            <==> forall i :: 0 <= i < |ds| ==>
                   last != 0xFFFF && (|ds[i]| >= 2 ==> Le16(ds[i][0], ds[i][1]) % 4096 != last)
    decreases |ds|
  {
    if ds != [] {
      var c := Core([], true, last);
      assert Kept(ds)[1..] == Kept(ds[1..]);
      if Startable(last, ds[0]) {
        ResyncEnds(Take(c, ds[0]).core, Kept(ds[1..]));
      } else {
        HeadlessRestSkipped(last, ds[1..]);
        assert ds == [ds[0]] + ds[1..];
      }
    }
  }

  lemma {:induction false} RunOpsAppend(o: Out, a: seq<Op>, b: seq<Op>)
    ensures var x := RunOps(o, a);
            var y := RunOps(x.out, b);
            RunOps(o, a + b) == Trace(y.out, x.sent + y.sent, x.log + y.log)
    decreases |a|
  {
    if a == [] {
      assert a + b == b;
    } else {
      assert (a + b)[0] == a[0] && (a + b)[1..] == a[1..] + b;
      var one := Step(o, a[0]);
      RunOpsAppend(one.out, a[1..], b);
      var x := RunOps(one.out, a[1..]);
      var y := RunOps(x.out, b);
      Assoc(one.sent, x.sent, y.sent);
      Assoc(one.log, x.log, y.log);
    }
  }

  lemma {:induction false} OfferedAppend(a: seq<Op>, b: seq<Op>)
    ensures Offered(a + b) == Offered(a) + Offered(b)
    decreases |a|
  {
    if a == [] {
      assert a + b == b;
    } else {
      assert (a + b)[0] == a[0] && (a + b)[1..] == a[1..] + b;
      OfferedAppend(a[1..], b);
      Assoc(Pushed(a[0]), Offered(a[1..]), Offered(b));
    }
  }

  lemma OneFrame(d: seq<byte>)
    requires 0 < |d| <= MAX_ISO
    ensures Frames(d) == [d]
  {
    assert d[..|d|] == d && Frames(d[|d|..]) == [];
  }

  lemma OneOp(o: Out, op: Op)
    ensures RunOps(o, [op]) == Step(o, op)
  {
    var a := Step(o, op);
    assert [op][1..] == [];
    assert a.sent + [] == a.sent && a.log + [] == a.log;
  }

  lemma OneFramePushed(o: Out, due: nat, d: seq<byte>)
    requires 0 < |d| <= MAX_ISO
    ensures var t := RunOps(o, [PushOp(due, d)]);
            && t.out == PushChunk(o, Chunk(due, d)) && t.sent == []
            && t.log == if |o.ring| >= SLOTS then [Gone(o.ring[0].data, true)] else []
  {
    OneOp(o, PushOp(due, d));
    OneFrame(d);
    assert [d][1..] == [];
    var one := PushChunk(o, Chunk(due, d));
    assert PushLog(one, due, [d][1..]) == [];
    assert PushFrames(o, due, [d]) == PushFrames(one, due, [d][1..]) == one;
  }

  lemma PushOne(o: Out, due: nat, d: seq<byte>)
    requires 0 < |d| <= MAX_ISO && |o.ring| < SLOTS
    ensures RunOps(o, [PushOp(due, d)]) == Trace(o.(ring := o.ring + [Chunk(due, d)]), [], [])
  {
    OneFramePushed(o, due, d);
  }

  /** n isochronous packets of one byte, due at time 2; the byte cannot complete a packet soon. */
  function Later(n: nat): seq<Op> {
    if n == 0 then [] else Later(n - 1) + [PushOp(2, [0xFF])]
  }

  function LaterChunks(n: nat): (q: seq<Chunk>)
    ensures |q| == n
    ensures forall i :: 0 <= i < n ==> q[i] == Chunk(2, [0xFF])
  {
    if n == 0 then [] else LaterChunks(n - 1) + [Chunk(2, [0xFF])]
  }

  lemma {:induction false} LaterQueued(o: Out, n: nat)
    requires |o.ring| + n <= SLOTS
    ensures RunOps(o, Later(n)) == Trace(o.(ring := o.ring + LaterChunks(n)), [], [])
  {
    if n == 0 {
      assert o.ring + LaterChunks(n) == o.ring;
    } else {
      var before := o.(ring := o.ring + LaterChunks(n - 1));
      LaterQueued(o, n - 1);
      RunOpsAppend(o, Later(n - 1), [PushOp(2, [0xFF])]);
      PushOne(before, 2, [0xFF]);
      Assoc(o.ring, LaterChunks(n - 1), [Chunk(2, [0xFF])]);
    }
  }

  lemma {:induction false} LaterOffered(n: nat)
    ensures var d := Concat(Offered(Later(n)));
            |d| == n && forall i :: 0 <= i < n ==> d[i] == 0xFF
  {
    if n > 0 {
      LaterOffered(n - 1);
      OneFrame([0xFF]);
      OfferedAppend(Later(n - 1), [PushOp(2, [0xFF])]);
      assert Offered([PushOp(2, [0xFF])]) == [[0xFF]] + Offered([]) == [[0xFF]];
      ConcatAppend(Offered(Later(n - 1)), [[0xFF]]);
      ConcatOne<byte>([0xFF]);
    }
  }

  /** The frame before it lost, frame d is taken for a packet although no handle is known. */
  lemma ReleaseAfterLoss(o: Out, d: seq<byte>, rest: seq<Chunk>)
    requires o.ring == [Chunk(1, d)] + rest && o.core == Core([], true, NO_HANDLE)
    requires WellFormed(d) && rest != [] && rest[0].due > 1
    ensures RunOps(o, [ReleaseOp(1)]).sent == [d]
  {
    assert [] + d == d;
    AbsorbFinishes([], d);
    assert o.ring[1..] == rest;
    assert Release(ReleaseOne(o).out, 1) == Released(ReleaseOne(o).out, []);
    assert [d] + [] == [d] && [ReleaseOp(1)][1..] == [];
  }

  /** One frame of the host's only packet so far, the rest of it, and 127 frames more: one too many. */
  const OVERFLOWING: seq<Op> := ([PushOp(0, [6, 0, 4, 9])] + [PushOp(1, [1, 0, 0])]) + Later(126)

  lemma OverflowingRun()
    ensures var a: seq<byte>, b: seq<byte> := [6, 0, 4, 9], [1, 0, 0];
            RunOps(NEW, OVERFLOWING)
            == Trace(NEW.(ring := ([Chunk(0, a)] + [Chunk(1, b)]) + LaterChunks(126)), [], [])
  {
    var a: seq<byte>, b: seq<byte> := [6, 0, 4, 9], [1, 0, 0];
    RunOpsAppend(NEW, [PushOp(0, a)] + [PushOp(1, b)], Later(126));
    RunOpsAppend(NEW, [PushOp(0, a)], [PushOp(1, b)]);
    PushOne(NEW, 0, a);
    assert [] + [Chunk(0, a)] == [Chunk(0, a)];
    PushOne(NEW.(ring := [Chunk(0, a)]), 1, b);
    LaterQueued(NEW.(ring := [Chunk(0, a)] + [Chunk(1, b)]), 126);
  }

  lemma PushIntoFull(o: Out, first: Chunk, rest: seq<Chunk>, due: nat, d: seq<byte>)
    requires o.ring == [first] + rest && |rest| == SLOTS - 1 && 0 < |d| <= MAX_ISO
    ensures var t := RunOps(o, [PushOp(due, d)]);
            t.out.ring == rest + [Chunk(due, d)] && t.out.core == Lose(o.core) && t.sent == []
  {
    OneFramePushed(o, due, d);
    assert o.ring[1..] == rest;
  }

  lemma OneTooMany()
    ensures var t := RunOps(NEW, OVERFLOWING + [PushOp(2, [0xFF])]);
            && t.out.ring == [Chunk(1, [1, 0, 0])] + LaterChunks(127)
            && t.out.core == Core([], true, NO_HANDLE) && t.sent == []
  {
    var a, b := Chunk(0, [6, 0, 4, 9]), Chunk(1, [1, 0, 0]);
    OverflowingRun();
    Assoc([a], [b], LaterChunks(126));
    PushIntoFull(RunOps(NEW, OVERFLOWING).out, a, [b] + LaterChunks(126), 2, [0xFF]);
    RunOpsAppend(NEW, OVERFLOWING, [PushOp(2, [0xFF])]);
    Assoc([b], LaterChunks(126), [Chunk(2, [0xFF])]);
  }

  lemma TwoOffered(a: seq<byte>, b: seq<byte>)
    requires 0 < |a| <= MAX_ISO && 0 < |b| <= MAX_ISO
    ensures Concat(Offered([PushOp(0, a)] + [PushOp(1, b)])) == a + b
  {
    OfferedAppend([PushOp(0, a)], [PushOp(1, b)]);
    OneFrame(a);
    OneFrame(b);
    assert Offered([PushOp(0, a)]) == [a] + Offered([]) == [a];
    assert Offered([PushOp(1, b)]) == [b] + Offered([]) == [b];
    ConcatAppend([a], [b]);
    ConcatOne(a);
    ConcatOne(b);
  }

  lemma OfferedThenLater(a: seq<byte>, b: seq<byte>, n: nat)
    requires 0 < |a| <= MAX_ISO && 0 < |b| <= MAX_ISO
    ensures Concat(Offered(([PushOp(0, a)] + [PushOp(1, b)]) + Later(n))) == (a + b) + Concat(Offered(Later(n)))
  {
    var start := [PushOp(0, a)] + [PushOp(1, b)];
    OfferedAppend(start, Later(n));
    ConcatAppend(Offered(start), Offered(Later(n)));
    TwoOffered(a, b);
  }

  lemma OneWhole(p: seq<byte>, tail: seq<byte>)
    requires WellFormed(p) && Partial(tail)
    ensures Absorb([], p + tail).packets == [p]
  {
    ConcatOne(p);
    AbsorbRecovers([p], tail);
  }

  /** What the host sent is one packet and an unfinished one. */
  lemma OverflowingOffered()
    ensures Absorb([], Concat(Offered(OVERFLOWING + [PushOp(2, [0xFF])]))).packets == [[6, 0, 4, 9] + [1, 0, 0]]
  {
    var a: seq<byte>, b: seq<byte> := [6, 0, 4, 9], [1, 0, 0];
    Assoc([PushOp(0, a)] + [PushOp(1, b)], Later(126), [PushOp(2, [0xFF])]);
    OfferedThenLater(a, b, 127);
    LaterOffered(127);
    OneWhole(a + b, Concat(Offered(Later(127))));
  }

  /**
   Losing the very first frame of a stream, before any handle is known, hands the controller a packet
   the host never sent: 129 frames are queued, the first is overwritten, the second taken for a packet.
   */
  lemma FirstLossCanInventPacket()
    ensures var pushes := OVERFLOWING + [PushOp(2, [0xFF])];
            && Absorb([], Concat(Offered(pushes))).packets == [[6, 0, 4, 9] + [1, 0, 0]]
            && RunOps(NEW, pushes + [ReleaseOp(1)]).sent == [[1, 0, 0]]
  {
    var pushes := OVERFLOWING + [PushOp(2, [0xFF])];
    OverflowingOffered();
    OneTooMany();
    RunOpsAppend(NEW, pushes, [ReleaseOp(1)]);
    ReleaseAfterLoss(RunOps(NEW, pushes).out, [1, 0, 0], LaterChunks(127));
  }
}
