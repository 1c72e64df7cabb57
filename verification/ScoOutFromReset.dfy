/**
 The host-to-controller voice ring from a reset, when no handle is known and the resynchronisation rule has
 nothing to go by: exactly when reassembly stays in step with the host's packets (src/common/sco_usb.c).
 */
module ScoOutFromReset {
  import opened Bytes
  import opened ScoPacket
  import opened ScoOutSpec
  import opened ScoOutRuns

  /** The frame is taken as the start of a packet. */
  predicate Begins(c: Core, g: Gone) {
    !g.lost && c.part == [] && (c.resync ==> Startable(c.last, g.data))
  }

  function After(c: Core, g: Gone): Core {
    if g.lost then Lose(c) else Take(c, g.data).core
  }

  /** Frames that leave are taken as packet starts only where firsts says that a packet of the host starts. */
  predicate InStep(c: Core, firsts: seq<bool>, log: seq<Gone>)
    requires |firsts| == |log|
    decreases |log|
  {
    log == [] || ((Begins(c, log[0]) ==> firsts[0]) && InStep(After(c, log[0]), firsts[1..], log[1..]))
  }

  /** n frames none of which is a packet's first. */
  function Inner(n: nat): (r: seq<bool>)
    ensures |r| == n && forall i :: 0 <= i < n ==> !r[i]
  {
    seq(n, i requires 0 <= i < n => false)
  }

  /** The first n frames of a packet. */
  function Marks(n: nat): (r: seq<bool>)
    ensures |r| == n && forall i :: 0 <= i < n ==> r[i] == (i == 0)
  {
    seq(n, i requires 0 <= i < n => i == 0)
  }

  /** For each frame of a stream of packets, whether it is its packet's first. */
  function Firsts(cuts: seq<seq<seq<byte>>>): (r: seq<bool>)
    ensures |r| == |Concat(cuts)|
    decreases |cuts|
  {
    if cuts == [] then [] else Marks(|cuts[0]|) + Firsts(cuts[1..])
  }

  lemma {:induction false} InStepAppend(c: Core, f: seq<bool>, a: seq<Gone>, g: seq<bool>, b: seq<Gone>)
    requires |f| == |a| && |g| == |b|
    ensures InStep(c, f + g, a + b) <==> InStep(c, f, a) && InStep(Replay(c, a).core, g, b)
    decreases |a|
  {
    if a == [] {
      assert f + g == g && a + b == b;
    } else {
      assert (f + g)[1..] == f[1..] + g && (a + b)[1..] == a[1..] + b;
      InStepAppend(After(c, a[0]), f[1..], a[1..], g, b);
    }
  }

  lemma InnerTail(n: nat)
    requires n > 0
    ensures Inner(n)[1..] == Marks(n)[1..] == Inner(n - 1)
  {
  }

  /** A packet's own first frame may begin it. */
  lemma InStepFirst(c: Core, log: seq<Gone>)
    requires log != []
    ensures InStep(c, Marks(|log|), log) <==> InStep(After(c, log[0]), Inner(|log[1..]|), log[1..])
  {
    InnerTail(|log|);
  }

  lemma NothingLeft(rest: seq<Gone>, more: seq<byte>)
    requires forall i :: 0 <= i < |rest| ==> rest[i].data != []
    requires Concat(Datas(rest)) + more == []
    ensures rest == [] && more == []
  {
    if rest != [] {
      assert Datas(rest)[0] == rest[0].data;
      ConcatGrows(Datas(rest));
    }
  }

  /* ---------------------------------------------------------------- one packet, handle unknown */

  predicate AllLost(log: seq<Gone>) {
    forall i :: 0 <= i < |log| ==> log[i].lost
  }

  /** No frame is released after a lost one. */
  predicate NoneAfterLoss(log: seq<Gone>) {
    forall i, j :: 0 <= i < j < |log| && log[i].lost ==> log[j].lost
  }

  lemma NoneAfterLossStep(log: seq<Gone>)
    requires log != []
    ensures NoneAfterLoss(log) <==> if log[0].lost then AllLost(log[1..]) else NoneAfterLoss(log[1..])
  {
    var rest := log[1..];
    assert forall i :: 0 <= i < |rest| ==> rest[i] == log[i + 1];
    assert forall i :: 0 < i < |log| ==> log[i] == rest[i - 1];
  }

  lemma IntactStep(log: seq<Gone>)
    requires log != []
    ensures Intact(log) <==> !log[0].lost && Intact(log[1..])
    ensures Intact(log) ==> NoneAfterLoss(log)
  {
    assert log == [log[0]] + log[1..];
  }

  /** After a loss with no handle known, the first frame released is taken for a packet start. */
  lemma {:induction false} AfterLoss(rest: seq<Gone>)
    ensures InStep(Core([], true, NO_HANDLE), Inner(|rest|), rest) <==> AllLost(rest)
    ensures AllLost(rest) ==> Replay(Core([], true, NO_HANDLE), rest) == Replayed(Core([], true, NO_HANDLE), [])
    decreases |rest|
  {
    if rest != [] {
      InnerTail(|rest|);
      assert rest == [rest[0]] + rest[1..];
      if rest[0].lost {
        AfterLoss(rest[1..]);
      }
    }
  }

  /** What the frames of the first packets may do: all released and the packet complete, or not. */
  ghost predicate Outcome(rest: seq<Gone>, whole: bool, h: nat, packet: seq<byte>, r: Replayed) {
    if Intact(rest) then
      if whole then r == Replayed(Core([], false, h), [packet]) else r.sent == []
    else r == Replayed(Core([], true, NO_HANDLE), [])
  }

  /** Bytes of one packet: what is done, the next frame, the other frames, and those still to come. */
  lemma NextFrame(done: seq<byte>, rest: seq<Gone>, more: seq<byte>)
    requires rest != []
    ensures done + Concat(Datas(rest)) + more
            == (done + rest[0].data) + Concat(Datas(rest[1..])) + more
            == (done + rest[0].data) + (Concat(Datas(rest[1..])) + more)
    ensures done + Concat(Datas(rest)) == (done + rest[0].data) + Concat(Datas(rest[1..]))
  {
    assert Datas(rest)[1..] == Datas(rest[1..]);
    Regroup(done, rest[0].data, Concat(Datas(rest[1..])), more);
    Assoc(done, rest[0].data, Concat(Datas(rest[1..])));
    Assoc(done + rest[0].data, Concat(Datas(rest[1..])), more);
  }

  /** A frame that completes the packet is its last; handle h is known from then on. */
  lemma Completes(h: nat, done: seq<byte>, rest: seq<Gone>, more: seq<byte>)
    requires h < 0x1000 && Partial(done) && rest != [] && !rest[0].lost
    requires forall i :: 0 <= i < |rest| ==> rest[i].data != []
    requires Concat(Datas(rest[1..])) + more == []
    requires WellFormed(done + rest[0].data) && HandleOf(done + rest[0].data) == h
    ensures rest[1..] == [] && more == []
    ensures Replay(Core(done, false, NO_HANDLE), rest) == Replayed(Core([], false, h), [done + rest[0].data])
  {
    NothingLeft(rest[1..], more);
    AbsorbFinishes(done, rest[0].data);
    assert Replay(Core([], false, h), rest[1..]) == Replayed(Core([], false, h), []);
    assert [done + rest[0].data] + [] == [done + rest[0].data];
  }

  /** Inside a packet that has been started while no handle is known. */
  ghost predicate Started(h: nat, done: seq<byte>, rest: seq<Gone>, more: seq<byte>) {
    && h < 0x1000 && done != [] && Partial(done)
    && (forall i :: 0 <= i < |rest| ==> rest[i].data != [])
    && WellFormed(done + Concat(Datas(rest)) + more) && HandleOf(done + Concat(Datas(rest)) + more) == h
    && (rest != [] || more != [])
  }

  /** A released frame either completes the packet or leaves it started. */
  lemma StartedStep(h: nat, done: seq<byte>, rest: seq<Gone>, more: seq<byte>)
    requires Started(h, done, rest, more) && rest != [] && !rest[0].lost
    ensures if Concat(Datas(rest[1..])) + more == [] then
              && rest[1..] == [] && more == []
              && Replay(Core(done, false, NO_HANDLE), rest)
                 == Replayed(Core([], false, h), [done + Concat(Datas(rest))])
            else
              && Started(h, done + rest[0].data, rest[1..], more)
              && Take(Core(done, false, NO_HANDLE), rest[0].data)
                 == Taken(Core(done + rest[0].data, false, NO_HANDLE), [], false)
  {
    var d, later := rest[0].data, Concat(Datas(rest[1..])) + more;
    NextFrame(done, rest, more);
    if later == [] {
      assert (done + d) + later == done + d;
      assert (done + d) + Concat(Datas(rest[1..])) == done + d;
      Completes(h, done, rest, more);
    } else {
      PrefixStaysPartial(done + d, later);
      AbsorbKeeps(done, d);
      assert rest[1..] == [] ==> Datas(rest[1..]) == [];
    }
  }

  lemma {:induction false} StartedInStep(h: nat, done: seq<byte>, rest: seq<Gone>, more: seq<byte>)
    requires Started(h, done, rest, more)
    ensures InStep(Core(done, false, NO_HANDLE), Inner(|rest|), rest) <==> NoneAfterLoss(rest)
    decreases |rest|
  {
    if rest != [] {
      InnerTail(|rest|);
      NoneAfterLossStep(rest);
      if rest[0].lost {
        AfterLoss(rest[1..]);
      } else {
        StartedStep(h, done, rest, more);
        if Concat(Datas(rest[1..])) + more != [] {
          StartedInStep(h, done + rest[0].data, rest[1..], more);
        }
      }
    }
  }

  lemma {:induction false} StartedEnds(h: nat, done: seq<byte>, rest: seq<Gone>, more: seq<byte>)
    requires Started(h, done, rest, more) && NoneAfterLoss(rest)
    ensures Outcome(rest, more == [], h, done + Concat(Datas(rest)), Replay(Core(done, false, NO_HANDLE), rest))
    decreases |rest|
  {
    if rest != [] {
      NoneAfterLossStep(rest);
      IntactStep(rest);
      if rest[0].lost {
        AfterLoss(rest[1..]);
      } else {
        StartedStep(h, done, rest, more);
        if Concat(Datas(rest[1..])) + more != [] {
          NextFrame(done, rest, more);
          StartedEnds(h, done + rest[0].data, rest[1..], more);
        }
      }
    }
  }

  lemma FirstTaken(resync: bool, d: seq<byte>)
    requires Partial(d)
    ensures Take(Core([], resync, NO_HANDLE), d) == Taken(Core(d, false, NO_HANDLE), [], false)
  {
    assert [] + d == d;
    AbsorbKeeps([], d);
  }

  /** From a boundary, the released first frame of a longer packet starts it. */
  lemma StartUnknown(resync: bool, h: nat, log: seq<Gone>, missing: seq<byte>)
    requires h < 0x1000 && log != [] && Startable(h, log[0].data) && !log[0].lost
    requires forall i :: 0 < i < |log| ==> log[i].data != []
    requires WellFormed(Concat(Datas(log)) + missing) && HandleOf(Concat(Datas(log)) + missing) == h
    requires |log| > 1 || missing != []
    ensures Started(h, log[0].data, log[1..], missing)
    ensures Take(Core([], resync, NO_HANDLE), log[0].data) == Taken(Core(log[0].data, false, NO_HANDLE), [], false)
    ensures log[0].data + Concat(Datas(log[1..])) == Concat(Datas(log))
  {
    FirstAndRest(log, missing);
    PrefixStaysPartial(log[0].data, Concat(Datas(log[1..])) + missing);
    FirstTaken(resync, log[0].data);
  }

  /** The log of a packet begins at a boundary; missing is what of the packet is still to come. */
  ghost predicate Opens(h: nat, log: seq<Gone>, missing: seq<byte>) {
    && h < 0x1000 && log != [] && Startable(h, log[0].data)
    && (forall i :: 0 < i < |log| ==> log[i].data != [])
    && WellFormed(Concat(Datas(log)) + missing) && HandleOf(Concat(Datas(log)) + missing) == h
  }

  lemma FirstInStep(resync: bool, h: nat, log: seq<Gone>, missing: seq<byte>)
    requires Opens(h, log, missing)
    ensures InStep(Core([], resync, NO_HANDLE), Marks(|log|), log) <==> NoneAfterLoss(log)
  {
    NoneAfterLossStep(log);
    if log[0].lost {
      InStepFirst(Core([], resync, NO_HANDLE), log);
      AfterLoss(log[1..]);
    } else if |log| == 1 && missing == [] {
      WholeUnknown(resync, h, log);
    } else {
      InStepFirst(Core([], resync, NO_HANDLE), log);
      StartUnknown(resync, h, log, missing);
      StartedInStep(h, log[0].data, log[1..], missing);
    }
  }

  /** A first frame that only starts its packet leaves the outcome to the others. */
  lemma OutcomeOfRest(c: Core, log: seq<Gone>, whole: bool, h: nat, packet: seq<byte>)
    requires log != [] && !log[0].lost && Take(c, log[0].data) == Taken(Core(log[0].data, false, NO_HANDLE), [], false)
    requires Outcome(log[1..], whole, h, packet, Replay(Core(log[0].data, false, NO_HANDLE), log[1..]))
    ensures Outcome(log, whole, h, packet, Replay(c, log))
  {
    IntactStep(log);
    var r := Replay(Core(log[0].data, false, NO_HANDLE), log[1..]);
    assert [] + r.sent == r.sent;
  }

  lemma FirstEnds(resync: bool, h: nat, log: seq<Gone>, missing: seq<byte>)
    requires Opens(h, log, missing) && NoneAfterLoss(log)
    ensures Outcome(log, missing == [], h, Concat(Datas(log)), Replay(Core([], resync, NO_HANDLE), log))
  {
    NoneAfterLossStep(log);
    IntactStep(log);
    if log[0].lost {
      AfterLoss(log[1..]);
    } else if |log| == 1 && missing == [] {
      WholeUnknown(resync, h, log);
    } else {
      StartUnknown(resync, h, log, missing);
      StartedEnds(h, log[0].data, log[1..], missing);
      OutcomeOfRest(Core([], resync, NO_HANDLE), log, missing == [], h, Concat(Datas(log)));
    }
  }

  lemma WholeUnknown(resync: bool, h: nat, log: seq<Gone>)
    requires h < 0x1000 && |log| == 1 && !log[0].lost
    requires WellFormed(Concat(Datas(log)) + []) && HandleOf(Concat(Datas(log)) + []) == h
    ensures InStep(Core([], resync, NO_HANDLE), Marks(|log|), log)
    ensures Replay(Core([], resync, NO_HANDLE), log) == Replayed(Core([], false, h), [Concat(Datas(log))])
  {
    var d := log[0].data;
    assert Datas(log) == [d];
    ConcatOne(d);
    assert [] + d == d && d + [] == d;
    AbsorbFinishes([], d);
    assert Replay(Core([], false, h), log[1..]) == Replayed(Core([], false, h), []);
    assert [d] + [] == [d];
  }

  lemma PacketOpens(h: nat, log: seq<Gone>, more: seq<seq<byte>>)
    requires h < 0x1000 && log != [] && CutPacket(h, Datas(log) + more)
    ensures Opens(h, log, Concat(more)) && (more == [] <==> Concat(more) == [])
  {
    var p := Datas(log) + more;
    ConcatAppend(Datas(log), more);
    ConcatGrows(more);
    assert more != [] ==> p[|log|] == more[0];
    forall i | 0 < i < |log| ensures log[i].data != [] {
      assert p[i] == log[i].data;
    }
    assert p[0] == log[0].data;
  }

  /** The frames of one packet from a boundary at which no handle is known. */
  lemma PacketUnknown(resync: bool, h: nat, log: seq<Gone>, more: seq<seq<byte>>)
    requires h < 0x1000 && log != [] && CutPacket(h, Datas(log) + more)
    ensures InStep(Core([], resync, NO_HANDLE), Marks(|log|), log) <==> NoneAfterLoss(log)
    ensures NoneAfterLoss(log) ==>
              Outcome(log, more == [], h, Concat(Datas(log)), Replay(Core([], resync, NO_HANDLE), log))
  {
    PacketOpens(h, log, more);
    FirstInStep(resync, h, log, Concat(more));
    if NoneAfterLoss(log) {
      FirstEnds(resync, h, log, Concat(more));
    }
  }

  /* ---------------------------------------------------------------- one packet, handle known */

  /** Once the handle is known, no frame inside a packet is ever taken for a start. */
  lemma {:induction false} InsideKnown(h: nat, intact: bool, done: seq<byte>, rest: seq<Gone>, more: seq<byte>)
    requires h < 0x1000
    requires forall i :: 0 <= i < |rest| ==> rest[i].data != [] && !Startable(h, rest[i].data)
    requires WellFormed(done + Concat(Datas(rest)) + more)
    requires intact ==> done != [] && Partial(done) && (rest != [] || more != [])
    ensures InStep(if intact then Core(done, false, h) else Core([], true, h), Inner(|rest|), rest)
    decreases |rest|
  {
    if rest != [] {
      var d := rest[0].data;
      var later := Concat(Datas(rest[1..])) + more;
      assert Datas(rest)[1..] == Datas(rest[1..]);
      Regroup(done, d, Concat(Datas(rest[1..])), more);
      InnerTail(|rest|);
      if rest[0].lost || !intact {
        InsideKnown(h, false, done + d, rest[1..], more);
      } else if later == [] {
        NothingLeft(rest[1..], more);
      } else {
        PrefixStaysPartial(done + d, later);
        AbsorbKeeps(done, d);
        assert rest[1..] == [] ==> Datas(rest[1..]) == [];
        InsideKnown(h, true, done + d, rest[1..], more);
      }
    }
  }

  lemma FirstKnown(c: Core, h: nat, log: seq<Gone>, missing: seq<byte>)
    requires h < 0x1000 && c.part == [] && c.last == h
    requires log != [] && Startable(h, log[0].data)
    requires forall i :: 0 < i < |log| ==> log[i].data != [] && !Startable(h, log[i].data)
    requires WellFormed(Concat(Datas(log)) + missing)
    ensures InStep(c, Marks(|log|), log)
  {
    var d, rest := log[0].data, log[1..];
    FirstAndRest(log, missing);
    Assoc(d, Concat(Datas(rest)), missing);
    InnerTail(|log|);
    assert forall i :: 0 <= i < |rest| ==> rest[i] == log[i + 1];
    if log[0].lost {
      InsideKnown(h, false, d, rest, missing);
    } else if |log| > 1 || missing != [] {
      PrefixStaysPartial(d, Concat(Datas(rest)) + missing);
      TakeStart(c, h, d);
      InsideKnown(h, true, d, rest, missing);
    }
  }

  lemma PacketKnown(c: Core, h: nat, log: seq<Gone>, more: seq<seq<byte>>)
    requires h < 0x1000 && c.part == [] && c.last == h && log != []
    requires CutPacket(h, Datas(log) + more)
    ensures InStep(c, Marks(|log|), log)
  {
    var p := Datas(log) + more;
    ConcatAppend(Datas(log), more);
    forall i | 0 < i < |log| ensures log[i].data != [] && !Startable(h, log[i].data) {
      assert p[i] == log[i].data;
    }
    assert p[0] == log[0].data;
    FirstKnown(c, h, log, Concat(more));
  }

  /* ---------------------------------------------------------------- whole streams */

  /**
   What a stream from a reset must avoid: until a packet has left whole, no frame is released after a lost
   one of the same packet.
   */
  predicate NoHeadlessRest(cuts: seq<seq<seq<byte>>>, log: seq<Gone>)
    decreases |cuts|
  {
    cuts == [] || log == []
    || (var n := Min(|cuts[0]|, |log|);
        && NoneAfterLoss(log[..n])
        && ((|log| >= |cuts[0]| && Intact(log[..n])) || NoHeadlessRest(cuts[1..], log[n..])))
  }

  lemma MarksSplit(cuts: seq<seq<seq<byte>>>, n: nat, m: nat)
    requires cuts != [] && n == |cuts[0]| <= m <= |Concat(cuts)|
    ensures Firsts(cuts)[..m] == Marks(n) + Firsts(cuts[1..])[..m - n]
  {
  }

  /** A stream stays in step if its first packet does and, from where that leads, the others do. */
  lemma InStepCons(c: Core, cuts: seq<seq<seq<byte>>>, a: seq<Gone>, b: seq<Gone>)
    requires cuts != [] && |a| == |cuts[0]| && |b| <= |Concat(cuts[1..])|
    ensures |a + b| <= |Concat(cuts)|
    ensures InStep(c, Firsts(cuts)[..|a + b|], a + b)
            <==> InStep(c, Marks(|a|), a) && InStep(Replay(c, a).core, Firsts(cuts[1..])[..|b|], b)
  {
    MarksSplit(cuts, |a|, |a + b|);
    InStepAppend(c, Marks(|a|), a, Firsts(cuts[1..])[..|b|], b);
  }

  lemma HeadlessCons(cuts: seq<seq<seq<byte>>>, a: seq<Gone>, b: seq<Gone>)
    requires cuts != [] && |a| == |cuts[0]| > 0
    ensures NoHeadlessRest(cuts, a + b) <==> NoneAfterLoss(a) && (Intact(a) || NoHeadlessRest(cuts[1..], b))
  {
    assert (a + b)[..|a|] == a && (a + b)[|a|..] == b;
  }

  lemma WholeKnown(c: Core, h: nat, cuts: seq<seq<seq<byte>>>, a: seq<Gone>)
    requires h < 0x1000 && c.part == [] && c.last == h && cuts != [] && CutPacket(h, cuts[0]) && Datas(a) == cuts[0]
    ensures InStep(c, Marks(|a|), a) && Replay(c, a).core.part == [] && Replay(c, a).core.last == h
  {
    assert Datas(a) + [] == cuts[0];
    PacketKnown(c, h, a, []);
    WholePacket(c, h, cuts[0], a);
  }

  lemma SplitPrefix<T>(x: seq<T>, y: seq<T>, p: seq<T>, q: seq<T>)
    requires x + y <= p + q && |x| == |p|
    ensures x == p && y <= q
  {
    assert x == (x + y)[..|x|] == (p + q)[..|p|] == p;
    assert y == (x + y)[|x|..];
  }

  lemma PartPrefix<T>(x: seq<T>, p: seq<T>, q: seq<T>)
    requires x <= p + q && |x| <= |p|
    ensures x + p[|x|..] == p
  {
  }

  /** A log that ends inside the first packet of a stream. */
  lemma HeadPart(cuts: seq<seq<seq<byte>>>, log: seq<Gone>)
    requires cuts != [] && Datas(log) <= Concat(cuts) && |log| < |cuts[0]|
    ensures Datas(log) + cuts[0][|log|..] == cuts[0]
  {
    PartPrefix(Datas(log), cuts[0], Concat(cuts[1..]));
  }

  /** A log that has the first packet of a stream in front. */
  lemma HeadWhole(cuts: seq<seq<seq<byte>>>, log: seq<Gone>, a: seq<Gone>, b: seq<Gone>)
    requires cuts != [] && Datas(log) <= Concat(cuts) && log == a + b && |a| == |cuts[0]|
    ensures Datas(a) == cuts[0] && Datas(b) <= Concat(cuts[1..]) && |b| <= |Concat(cuts[1..])|
  {
    DatasAppend(a, b);
    SplitPrefix(Datas(a), Datas(b), cuts[0], Concat(cuts[1..]));
    assert |Datas(b)| == |b|;
  }

  lemma PartKnown(c: Core, h: nat, cuts: seq<seq<seq<byte>>>, log: seq<Gone>)
    requires h < 0x1000 && c.part == [] && c.last == h && cuts != [] && CutPacket(h, cuts[0]) && log != []
    requires |log| < |cuts[0]| && Datas(log) + cuts[0][|log|..] == cuts[0]
    ensures |log| <= |Concat(cuts)| && InStep(c, Firsts(cuts)[..|log|], log)
  {
    PacketKnown(c, h, log, cuts[0][|log|..]);
    assert Firsts(cuts)[..|log|] == Marks(|log|);
  }

  lemma {:induction false} KnownInStep(c: Core, h: nat, cuts: seq<seq<seq<byte>>>, log: seq<Gone>)
    requires h < 0x1000 && c.part == [] && c.last == h
    requires forall i :: 0 <= i < |cuts| ==> CutPacket(h, cuts[i])
    requires Datas(log) <= Concat(cuts)
    ensures InStep(c, Firsts(cuts)[..|log|], log)
    decreases |cuts|
  {
    assert |log| == |Datas(log)| <= |Concat(cuts)|;
    if cuts != [] && log != [] {
      if |log| < |cuts[0]| {
        HeadPart(cuts, log);
        PartKnown(c, h, cuts, log);
      } else {
        var a, b := log[..|cuts[0]|], log[|cuts[0]|..];
        HeadWhole(cuts, log, a, b);
        WholeKnown(c, h, cuts, a);
        KnownInStep(Replay(c, a).core, h, cuts[1..], b);
        InStepCons(c, cuts, a, b);
      }
    }
  }

  /** What reassembly has done with a stream so far. */
  ghost predicate StaysInStep(resync: bool, cuts: seq<seq<seq<byte>>>, log: seq<Gone>)
    requires |log| <= |Concat(cuts)|
  {
    var c := Core([], resync, NO_HANDLE);
    && (InStep(c, Firsts(cuts)[..|log|], log) <==> NoHeadlessRest(cuts, log))
    && (NoHeadlessRest(cuts, log) ==> Replay(c, log).sent == Survivors(cuts, log))
  }

  /** The log ends inside the first packet. */
  lemma PartOfPacket(resync: bool, h: nat, cuts: seq<seq<seq<byte>>>, log: seq<Gone>)
    requires h < 0x1000 && cuts != [] && CutPacket(h, cuts[0]) && log != []
    requires |log| < |cuts[0]| && Datas(log) + cuts[0][|log|..] == cuts[0]
    ensures |log| <= |Concat(cuts)| && StaysInStep(resync, cuts, log)
  {
    PacketUnknown(resync, h, log, cuts[0][|log|..]);
    assert Firsts(cuts)[..|log|] == Marks(|log|);
    assert log[..|log|] == log && NoHeadlessRest(cuts[1..], log[|log|..]);
  }

  /** The first packet has gone; what it left decides about the rest. */
  lemma WholeInStep(resync: bool, h: nat, cuts: seq<seq<seq<byte>>>, a: seq<Gone>, b: seq<Gone>)
    requires h < 0x1000 && cuts != [] && Datas(a) == cuts[0] && Datas(b) <= Concat(cuts[1..])
    requires forall i :: 0 <= i < |cuts| ==> CutPacket(h, cuts[i])
    requires |b| <= |Concat(cuts[1..])| && StaysInStep(true, cuts[1..], b)
    ensures |a + b| <= |Concat(cuts)|
    ensures InStep(Core([], resync, NO_HANDLE), Firsts(cuts)[..|a + b|], a + b) <==> NoHeadlessRest(cuts, a + b)
  {
    assert Datas(a) + [] == cuts[0];
    PacketUnknown(resync, h, a, []);
    InStepCons(Core([], resync, NO_HANDLE), cuts, a, b);
    HeadlessCons(cuts, a, b);
    if Intact(a) {
      KnownInStep(Core([], false, h), h, cuts[1..], b);
    }
  }

  /** The first packet sent, if it was, and what follows. */
  lemma SentCons(c: Core, h: nat, cuts: seq<seq<seq<byte>>>, a: seq<Gone>, b: seq<Gone>)
    requires cuts != [] && Datas(a) == cuts[0]
    requires Outcome(a, true, h, Concat(cuts[0]), Replay(c, a))
    requires var next := if Intact(a) then Core([], false, h) else Core([], true, NO_HANDLE);
             Replay(next, b).sent == Survivors(cuts[1..], b)
    ensures Replay(c, a + b).sent == Survivors(cuts, a + b)
  {
    ReplayAppend(c, a, b);
    assert |a| == |Datas(a)|;
    SurvivorsCons(cuts, a, b);
  }

  lemma WholeSurvives(resync: bool, h: nat, cuts: seq<seq<seq<byte>>>, a: seq<Gone>, b: seq<Gone>)
    requires h < 0x1000 && cuts != [] && Datas(a) == cuts[0] && Datas(b) <= Concat(cuts[1..])
    requires forall i :: 0 <= i < |cuts| ==> CutPacket(h, cuts[i])
    requires |b| <= |Concat(cuts[1..])| && StaysInStep(true, cuts[1..], b)
    requires NoHeadlessRest(cuts, a + b)
    ensures Replay(Core([], resync, NO_HANDLE), a + b).sent == Survivors(cuts, a + b)
  {
    assert Datas(a) + [] == cuts[0];
    PacketUnknown(resync, h, a, []);
    HeadlessCons(cuts, a, b);
    if Intact(a) {
      ReplaySurvivors(Core([], false, h), h, cuts[1..], b);
    }
    SentCons(Core([], resync, NO_HANDLE), h, cuts, a, b);
  }

  lemma WholeOfPacket(resync: bool, h: nat, cuts: seq<seq<seq<byte>>>, a: seq<Gone>, b: seq<Gone>, log: seq<Gone>)
    requires log == a + b && h < 0x1000 && cuts != [] && Datas(a) == cuts[0] && Datas(b) <= Concat(cuts[1..])
    requires forall i :: 0 <= i < |cuts| ==> CutPacket(h, cuts[i])
    requires |b| <= |Concat(cuts[1..])| && StaysInStep(true, cuts[1..], b)
    ensures |log| <= |Concat(cuts)| && StaysInStep(resync, cuts, log)
  {
    WholeInStep(resync, h, cuts, a, b);
    if NoHeadlessRest(cuts, a + b) {
      WholeSurvives(resync, h, cuts, a, b);
    }
  }

  lemma NothingGone(resync: bool, cuts: seq<seq<seq<byte>>>)
    requires cuts != [] ==> cuts[0] != []
    ensures StaysInStep(resync, cuts, [])
  {
  }

  lemma {:induction false} StreamInStep(resync: bool, h: nat, cuts: seq<seq<seq<byte>>>, log: seq<Gone>)
    requires h < 0x1000
    requires forall i :: 0 <= i < |cuts| ==> CutPacket(h, cuts[i])
    requires Datas(log) <= Concat(cuts)
    ensures |log| <= |Concat(cuts)| && StaysInStep(resync, cuts, log)
    decreases |cuts|
  {
    assert |log| == |Datas(log)| <= |Concat(cuts)|;
    if log == [] {
      NothingGone(resync, cuts);
    } else if |log| < |cuts[0]| {
      HeadPart(cuts, log);
      PartOfPacket(resync, h, cuts, log);
    } else {
      var a, b := log[..|cuts[0]|], log[|cuts[0]|..];
      HeadWhole(cuts, log, a, b);
      StreamInStep(true, h, cuts[1..], b);
      WholeOfPacket(resync, h, cuts, a, b, log);
    }
  }

  lemma PrefixOf<T>(a: seq<T>, b: seq<T>, all: seq<T>)
    requires a + b <= all
    ensures a <= all
  {
  }

  lemma {:induction false} IntactHasHead(cuts: seq<seq<seq<byte>>>, log: seq<Gone>)
    requires Intact(log)
    ensures NoHeadlessRest(cuts, log)
    decreases |cuts|
  {
    if cuts != [] && log != [] {
      var n := Min(|cuts[0]|, |log|);
      assert Intact(log[..n]) && Intact(log[n..]);
      IntactHasHead(cuts[1..], log[n..]);
    }
  }

  /**
   From a reset, exactly. For every interleaving of pushes and releases: a frame that is not its packet's first
   is taken for a packet start if and only if, before any packet has left whole, a frame is released after
   a lost one of the same packet. If that never happens the controller receives exactly the packets none of
   whose frames was overwritten, whole and in order; in particular if the first packet lost no frame.
   */
  lemma FromReset(ops: seq<Op>, h: nat, cuts: seq<seq<seq<byte>>>)
    requires h < 0x1000
    requires forall i :: 0 <= i < |cuts| ==> CutPacket(h, cuts[i])
    requires Offered(ops) <= Concat(cuts)
    ensures var t := RunOps(NEW, ops);
            && |t.log| <= |Concat(cuts)|
            && (InStep(NEW.core, Firsts(cuts)[..|t.log|], t.log) <==> NoHeadlessRest(cuts, t.log))
            && (NoHeadlessRest(cuts, t.log) ==> t.sent == Survivors(cuts, t.log))
            && (cuts != [] && |t.log| >= |cuts[0]| && Intact(t.log[..|cuts[0]|]) ==> NoHeadlessRest(cuts, t.log))
            && (t.out.drops == 0 ==> NoHeadlessRest(cuts, t.log))
            && Datas(t.log) + Queued(t.out.ring) == Offered(ops) && Losses(t.log) == t.out.drops
  {
    var t := RunOps(NEW, ops);
    RunExplained(NEW, ops);
    assert Queued(NEW.ring) + Offered(ops) == Offered(ops);
    PrefixOf(Datas(t.log), Queued(t.out.ring), Concat(cuts));
    StreamInStep(false, h, cuts, t.log);
    NoLossIsIntact(t.log);
    if Intact(t.log) {
      IntactHasHead(cuts, t.log);
    }
  }
}
