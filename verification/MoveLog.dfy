/** The record of packets entering and leaving the bridge's queues. */
module MoveLog {
  import opened Bytes

  /** The places a packet can wait. */
  datatype Line = Held | Events | AclIn | ScoIn | ScoOut

  datatype Fate = Delivered | Overwritten | Oversize | Flushed

  datatype Move<P> = Entered(line: Line, p: P) | Left(line: Line, p: P, fate: Fate)

  /** All of q leaves a line, oldest first. */
  function Leave<P>(line: Line, q: seq<P>, fate: Fate): (m: seq<Move<P>>)
    decreases |q|
  {
    if q == [] then [] else [Left(line, q[0], fate)] + Leave(line, q[1..], fate)
  }

  function EnteredOn<P>(moves: seq<Move<P>>, line: Line): seq<P>
    decreases |moves|
  {
    if moves == [] then []
    else
      (if moves[0].Entered? && moves[0].line == line then [moves[0].p] else []) + EnteredOn(moves[1..], line)
  }

  function LeftOn<P>(moves: seq<Move<P>>, line: Line): seq<P>
    decreases |moves|
  {
    if moves == [] then []
    else
      (if moves[0].Left? && moves[0].line == line then [moves[0].p] else []) + LeftOn(moves[1..], line)
  }

  function Count<P>(moves: seq<Move<P>>, line: Line, fate: Fate): nat
    decreases |moves|
  {
    if moves == [] then 0
    else
      (if moves[0].Left? && moves[0].line == line && moves[0].fate == fate then 1 else 0)
      + Count(moves[1..], line, fate)
  }

  lemma {:induction false} EnteredAppend<P>(a: seq<Move<P>>, b: seq<Move<P>>, line: Line)
    ensures EnteredOn(a + b, line) == EnteredOn(a, line) + EnteredOn(b, line)
    decreases |a|
  {
    if a == [] {
      assert a + b == b;
    } else {
      assert (a + b)[1..] == a[1..] + b;
      EnteredAppend(a[1..], b, line);
    }
  }

  lemma {:induction false} LeftAppend<P>(a: seq<Move<P>>, b: seq<Move<P>>, line: Line)
    ensures LeftOn(a + b, line) == LeftOn(a, line) + LeftOn(b, line)
    decreases |a|
  {
    if a == [] {
      assert a + b == b;
    } else {
      assert (a + b)[1..] == a[1..] + b;
      LeftAppend(a[1..], b, line);
    }
  }

  lemma {:induction false} CountAppend<P>(a: seq<Move<P>>, b: seq<Move<P>>, line: Line, fate: Fate)
    ensures Count(a + b, line, fate) == Count(a, line, fate) + Count(b, line, fate)
    decreases |a|
  {
    if a == [] {
      assert a + b == b;
    } else {
      assert (a + b)[1..] == a[1..] + b;
      CountAppend(a[1..], b, line, fate);
    }
  }

  lemma {:induction false} LeaveMoves<P>(from: Line, q: seq<P>, why: Fate, line: Line, fate: Fate)
    ensures EnteredOn(Leave(from, q, why), line) == []
    ensures LeftOn(Leave(from, q, why), line) == if line == from then q else []
    ensures Count(Leave(from, q, why), line, fate) == if line == from && fate == why then |q| else 0
    decreases |q|
  {
    if q != [] {
      assert Leave(from, q, why)[1..] == Leave(from, q[1..], why);
      LeaveMoves(from, q[1..], why, line, fate);
    }
  }

  lemma OneMove<P>(m: Move<P>, line: Line, fate: Fate)
    ensures EnteredOn([m], line) == if m.Entered? && m.line == line then [m.p] else []
    ensures LeftOn([m], line) == if m.Left? && m.line == line then [m.p] else []
    ensures Count([m], line, fate) == if m.Left? && m.line == line && m.fate == fate then 1 else 0
  {
  }

  /** A packet joins a line that first gives up some of its oldest ones. */
  lemma PushMoves<P>(from: Line, gone: seq<P>, why: Fate, p: P, line: Line, fate: Fate)
    ensures var moves := Leave(from, gone, why) + [Entered(from, p)];
            && EnteredOn(moves, line) == (if line == from then [p] else [])
            && LeftOn(moves, line) == (if line == from then gone else [])
            && Count(moves, line, fate) == (if line == from && fate == why then |gone| else 0)
  {
    EnteredAppend(Leave(from, gone, why), [Entered(from, p)], line);
    LeftAppend(Leave(from, gone, why), [Entered(from, p)], line);
    CountAppend(Leave(from, gone, why), [Entered(from, p)], line, fate);
    LeaveMoves(from, gone, why, line, fate);
    OneMove(Entered(from, p), line, fate);
  }

  /** First in, first out: what waited and what entered is what left and what waits, in order. */
  predicate InOrder<P(==)>(before: seq<P>, moves: seq<Move<P>>, after: seq<P>, line: Line) {
    before + EnteredOn(moves, line) == LeftOn(moves, line) + after
  }

  lemma SplitPush<P>(q: seq<P>, n: nat, p: P)
    requires n <= |q|
    ensures q + [p] == q[..n] + (q[n..] + [p])
  {
  }

  lemma AloneIn<T>(q: seq<T>)
    ensures q + [] == q && [] + q == q
  {
  }

  lemma FirstOf<T>(q: seq<T>)
    requires q != []
    ensures [q[0]] + q[1..] == q
  {
  }

  lemma HalvesOf<T>(q: seq<T>, n: nat)
    requires n <= |q|
    ensures q[..n] + q[n..] == q
  {
  }

  /** Nothing happens. */
  lemma Still<P>(q: seq<P>, line: Line)
    ensures InOrder(q, [], q, line)
  {
    AloneIn(q);
  }

  lemma LeaveInOrder<P>(from: Line, q: seq<P>, n: nat, why: Fate)
    requires n <= |q|
    ensures InOrder(q, Leave(from, q[..n], why), q[n..], from)
  {
    LeaveMoves(from, q[..n], why, from, why);
    AloneIn(q);
    HalvesOf(q, n);
  }

  lemma LeaveElsewhere<P>(from: Line, gone: seq<P>, why: Fate, other: seq<P>, line: Line)
    requires line != from
    ensures InOrder(other, Leave(from, gone, why), other, line)
  {
    LeaveMoves(from, gone, why, line, why);
    AloneIn(other);
  }

  lemma FrontLeaves<P>(from: Line, q: seq<P>, why: Fate)
    requires q != []
    ensures InOrder(q, [Left(from, q[0], why)], q[1..], from)
  {
    OneMove(Left(from, q[0], why), from, why);
    AloneIn(q);
    FirstOf(q);
  }

  lemma OthersStay<P>(from: Line, p: P, why: Fate, other: seq<P>, line: Line)
    requires line != from
    ensures InOrder(other, [Left(from, p, why)], other, line)
  {
    OneMove(Left(from, p, why), line, why);
    AloneIn(other);
  }

  lemma PushInOrder<P>(from: Line, q: seq<P>, n: nat, why: Fate, p: P)
    requires n <= |q|
    ensures InOrder(q, Leave(from, q[..n], why) + [Entered(from, p)], q[n..] + [p], from)
  {
    PushMoves(from, q[..n], why, p, from, Delivered);
    SplitPush(q, n, p);
  }

  lemma PushElsewhere<P>(from: Line, gone: seq<P>, why: Fate, p: P, other: seq<P>, line: Line)
    requires line != from
    ensures InOrder(other, Leave(from, gone, why) + [Entered(from, p)], other, line)
  {
    PushMoves(from, gone, why, p, line, Delivered);
    assert other + [] == [] + other;
  }

  /** Two stretches in a row keep the order. */
  lemma Chain<P>(a: seq<P>, m: seq<Move<P>>, b: seq<P>, n: seq<Move<P>>, c: seq<P>, line: Line)
    requires InOrder(a, m, b, line) && InOrder(b, n, c, line)
    ensures InOrder(a, m + n, c, line)
  {
    EnteredAppend(m, n, line);
    LeftAppend(m, n, line);
    Assoc(a, EnteredOn(m, line), EnteredOn(n, line));
    Assoc(LeftOn(m, line), b, EnteredOn(n, line));
    Assoc(LeftOn(m, line), LeftOn(n, line), c);
  }

  function Only<P>(line: Line, from: Line, q: seq<P>): seq<P> {
    if line == from then q else []
  }

  /** Emptying lines one after the other. */
  lemma LeaveNext<P>(m: seq<Move<P>>, from: Line, q: seq<P>, why: Fate, line: Line, fate: Fate)
    ensures EnteredOn(m + Leave(from, q, why), line) == EnteredOn(m, line)
    ensures LeftOn(m + Leave(from, q, why), line) == LeftOn(m, line) + Only(line, from, q)
    ensures Count(m + Leave(from, q, why), line, fate)
            == Count(m, line, fate) + if line == from && fate == why then |q| else 0
  {
    EnteredAppend(m, Leave(from, q, why), line);
    LeftAppend(m, Leave(from, q, why), line);
    CountAppend(m, Leave(from, q, why), line, fate);
    LeaveMoves(from, q, why, line, fate);
  }

  /** What waits on each line. */
  datatype Waiting<P> = Waiting(held: seq<P>, events: seq<P>, aclIn: seq<P>, scoIn: seq<P>, scoOut: seq<P>)

  function On<P>(w: Waiting<P>, line: Line): seq<P> {
    match line
    case Held => w.held
    case Events => w.events
    case AclIn => w.aclIn
    case ScoIn => w.scoIn
    case ScoOut => w.scoOut
  }

  function FlushAll<P>(w: Waiting<P>): seq<Move<P>> {
    Leave(Held, w.held, Flushed) + Leave(Events, w.events, Flushed) + Leave(AclIn, w.aclIn, Flushed)
    + Leave(ScoIn, w.scoIn, Flushed) + Leave(ScoOut, w.scoOut, Flushed)
  }

  lemma OneOfFive<P>(w: Waiting<P>, line: Line)
    ensures (((Only(line, Held, w.held) + Only(line, Events, w.events)) + Only(line, AclIn, w.aclIn))
             + Only(line, ScoIn, w.scoIn)) + Only(line, ScoOut, w.scoOut)
            == On(w, line)
  {
  }

  lemma FlushMoves<P>(w: Waiting<P>, line: Line, fate: Fate)
    ensures EnteredOn(FlushAll(w), line) == []
    ensures LeftOn(FlushAll(w), line) == On(w, line)
    ensures Count(FlushAll(w), line, fate) == if fate == Flushed then |On(w, line)| else 0
  {
    var h := Leave(Held, w.held, Flushed);
    var e := h + Leave(Events, w.events, Flushed);
    var a := e + Leave(AclIn, w.aclIn, Flushed);
    var i := a + Leave(ScoIn, w.scoIn, Flushed);
    LeaveMoves(Held, w.held, Flushed, line, fate);
    LeaveNext(h, Events, w.events, Flushed, line, fate);
    LeaveNext(e, AclIn, w.aclIn, Flushed, line, fate);
    LeaveNext(a, ScoIn, w.scoIn, Flushed, line, fate);
    LeaveNext(i, ScoOut, w.scoOut, Flushed, line, fate);
    OneOfFive(w, line);
  }
}
