/**
 ACL flow-control credits in the bridge's 16-bit arithmetic over its eight-entry handle table
 (src/common/hci_bridge.c), after sections 4.1 and 4.3 of Bluetooth Core Specification Vol 4 Part E.
 */
module CreditSpec {
  import opened Bytes

  const HANDLES := 8

  datatype Entry = Entry(handle: u16, outstanding: u16, inUse: bool)

  const UNUSED := Entry(0, 0, false)

  datatype Pool = Pool(total: u16, available: u16, table: seq<Entry>)

  const EMPTY_TABLE := [UNUSED, UNUSED, UNUSED, UNUSED, UNUSED, UNUSED, UNUSED, UNUSED]

  /** A store to a 16-bit field. */
  function Wrap(x: int): u16 {
    x % U16_SPAN
  }

  function InFlight(t: seq<Entry>): u16
    decreases |t|
  {
    if t == [] then 0
    else
      var before, e := InFlight(t[..|t| - 1]), t[|t| - 1];
      if e.inUse then Wrap(before + e.outstanding) else before
  }

  function Clamp(p: Pool): Pool {
    if p.total == 0 then p.(available := 0)
    else
      var inFlight := InFlight(p.table);
      var ceiling := if p.total > inFlight then Wrap(p.total - inFlight) else 0;
      if p.available > ceiling then p.(available := ceiling) else p
  }

  predicate Holds(e: Entry, h: u16) {
    e.inUse && e.handle == h
  }

  /** The first entry of a handle, or the table's length. */
  function Find(t: seq<Entry>, h: u16): (i: nat)
    ensures i <= |t| && (i < |t| ==> Holds(t[i], h))
    ensures forall j :: 0 <= j < i ==> !Holds(t[j], h)
    decreases |t|
  {
    if t == [] || Holds(t[0], h) then 0 else 1 + Find(t[1..], h)
  }

  function FirstFree(t: seq<Entry>): (i: nat)
    ensures i <= |t| && (i < |t| ==> !t[i].inUse)
    ensures forall j :: 0 <= j < i ==> t[j].inUse
    decreases |t|
  {
    if t == [] || !t[0].inUse then 0 else 1 + FirstFree(t[1..])
  }

  predicate HasSlot(t: seq<Entry>, h: u16) {
    Find(t, h) < |t| || FirstFree(t) < |t|
  }

  function Slot(t: seq<Entry>, h: u16): (i: nat)
    requires HasSlot(t, h)
    ensures i < |t|
  {
    if Find(t, h) < |t| then Find(t, h) else FirstFree(t)
  }

  function Reserve(t: seq<Entry>, h: u16): (r: seq<Entry>)
    requires HasSlot(t, h)
    ensures |r| == |t| && Holds(r[Slot(t, h)], h)
  {
    if Find(t, h) < |t| then t else t[FirstFree(t) := Entry(h, 0, true)]
  }

  /** A handle finds a slot exactly when an entry is its own already or free. */
  lemma SlotWhenRoom(t: seq<Entry>, h: u16)
    ensures HasSlot(t, h) <==> exists e <- t :: !e.inUse || e.handle == h
  {
    if i: nat :| i < |t| && (!t[i].inUse || t[i].handle == h) {
      assert t[i] in t;
    }
  }

  /** Everything that moves credits: reports of the controller, packets offered to the wire, a reset. */
  datatype Step =
    | Learned(n: u16)
    | Completed(h: u16, n: u16)
    | Disconnected(h: u16)
    | Sent(h: u16)
    | Refused(h: u16)
    | Cleared

  predicate Can(p: Pool, s: Step) {
    s.Sent? || s.Refused? ==> p.available > 0 && HasSlot(p.table, s.h)
  }

  function Apply(p: Pool, s: Step): (r: Pool)
    requires Can(p, s)
    ensures |p.table| == HANDLES ==> |r.table| == HANDLES
  {
    match s
    case Learned(n) =>
      var q := if p.total == 0 then p.(available := n, table := EMPTY_TABLE) else p;
      Clamp(q.(total := n))
    case Completed(h, n) =>
      var i := Find(p.table, h);
      if i == |p.table| then p
      else
        var e := p.table[i];
        var actual := if e.outstanding >= n then n else e.outstanding;
        Clamp(p.(available := Wrap(p.available + actual),
                 table := p.table[i := e.(outstanding := Wrap(e.outstanding - actual))]))
    case Disconnected(h) =>
      var i := Find(p.table, h);
      if i == |p.table| then p
      else
        var e := p.table[i];
        Clamp(p.(available := Wrap(p.available + e.outstanding),
                 table := p.table[i := e.(outstanding := 0, inUse := false)]))
    case Sent(h) =>
      var t, i := Reserve(p.table, h), Slot(p.table, h);
      p.(available := Wrap(p.available - 1),
         table := t[i := t[i].(outstanding := Wrap(t[i].outstanding + 1))])
    case Refused(h) => p.(table := Reserve(p.table, h))
    case Cleared => p.(available := p.total, table := EMPTY_TABLE)
  }

  const START := Pool(0, 0, EMPTY_TABLE)

  predicate Runs(p: Pool, steps: seq<Step>)
    decreases |steps|
  {
    steps == [] || (Can(p, steps[0]) && Runs(Apply(p, steps[0]), steps[1..]))
  }

  function Run(p: Pool, steps: seq<Step>): (r: Pool)
    requires Runs(p, steps)
    ensures |p.table| == HANDLES ==> |r.table| == HANDLES
    decreases |steps|
  {
    if steps == [] then p else Run(Apply(p, steps[0]), steps[1..])
  }

  lemma {:induction false} RunAppend(p: Pool, a: seq<Step>, b: seq<Step>)
    requires Runs(p, a) && Runs(Run(p, a), b)
    ensures Runs(p, a + b) && Run(p, a + b) == Run(Run(p, a), b)
    decreases |a|
  {
    if a == [] {
      assert a + b == b;
    } else {
      assert (a + b)[1..] == a[1..] + b;
      RunAppend(Apply(p, a[0]), a[1..], b);
    }
  }

  /* ---------------------------------------------------------------- sums */

  function Due(e: Entry): nat {
    if e.inUse then e.outstanding else 0
  }

  /** Packets in flight, counted without wrapping. */
  function Owing(t: seq<Entry>): nat
    decreases |t|
  {
    if t == [] then 0 else Owing(t[..|t| - 1]) + Due(t[|t| - 1])
  }

  lemma {:induction false} OwingUpdate(t: seq<Entry>, i: nat, e: Entry)
    requires i < |t|
    ensures Owing(t[i := e]) == Owing(t) - Due(t[i]) + Due(e)
    decreases |t|
  {
    var n := |t| - 1;
    if i == n {
      assert t[i := e][..n] == t[..n];
    } else {
      assert t[i := e][..n] == t[..n][i := e];
      OwingUpdate(t[..n], i, e);
    }
  }

  lemma {:induction false} EntryWithin(t: seq<Entry>, i: nat)
    requires i < |t|
    ensures Due(t[i]) <= Owing(t)
    decreases |t|
  {
    if i < |t| - 1 {
      EntryWithin(t[..|t| - 1], i);
    }
  }

  lemma {:induction false} InFlightExact(t: seq<Entry>)
    requires Owing(t) < U16_SPAN
    ensures InFlight(t) == Owing(t)
    decreases |t|
  {
    if t != [] {
      InFlightExact(t[..|t| - 1]);
    }
  }

  lemma {:induction false} NothingOwed(t: seq<Entry>)
    requires forall i :: 0 <= i < |t| ==> t[i] == UNUSED
    ensures Owing(t) == 0
    decreases |t|
  {
    if t != [] {
      NothingOwed(t[..|t| - 1]);
    }
  }

  /* ---------------------------------------------------------------- safety */

  predicate Distinct(t: seq<Entry>) {
    forall i, j :: 0 <= i < j < |t| && t[i].inUse && t[j].inUse ==> t[i].handle != t[j].handle
  }

  /** No credit beyond the controller's buffers, and no 16-bit field ever out of room. */
  predicate Sound(p: Pool) {
    && |p.table| == HANDLES && Distinct(p.table)
    && p.available + Owing(p.table) < U16_SPAN
    && (p.available == 0 || p.available + Owing(p.table) <= p.total)
  }

  /** Every credit of the controller is either available or owed by a packet in flight. */
  predicate Exact(p: Pool, n: u16) {
    p.available + Owing(p.table) == p.total && (p.total == n || p.total == 0)
  }

  lemma ClampIsSafe(p: Pool)
    requires |p.table| == HANDLES && Distinct(p.table) && p.available + Owing(p.table) < U16_SPAN
    ensures Sound(Clamp(p))
    ensures p.available + Owing(p.table) <= p.total ==> Clamp(p) == p
  {
    InFlightExact(p.table);
  }

  lemma LearnedKeeps(p: Pool, n: u16)
    requires Sound(p)
    ensures Sound(Apply(p, Learned(n)))
    ensures Exact(p, n) ==> Exact(Apply(p, Learned(n)), n)
  {
    NothingOwed(EMPTY_TABLE);
    var q := if p.total == 0 then p.(available := n, table := EMPTY_TABLE) else p;
    ClampIsSafe(q.(total := n));
  }

  /** Neither operation wraps: what leaves the handle's account arrives among the available credits. */
  lemma ReturnKeeps(p: Pool, i: nat, actual: u16, e: Entry, n: u16)
    requires Sound(p) && i < HANDLES && p.table[i].inUse && actual <= p.table[i].outstanding
    requires e.handle == p.table[i].handle && Due(e) == p.table[i].outstanding - actual
    ensures var q := p.(available := Wrap(p.available + actual), table := p.table[i := e]);
            && q.available == p.available + actual
            && Sound(Clamp(q)) && (Exact(p, n) ==> Exact(Clamp(q), n))
  {
    OwingUpdate(p.table, i, e);
    EntryWithin(p.table, i);
    var q := p.(available := Wrap(p.available + actual), table := p.table[i := e]);
    ClampIsSafe(q);
  }

  lemma ReserveKeeps(p: Pool, h: u16)
    requires Sound(p) && HasSlot(p.table, h)
    ensures Sound(p.(table := Reserve(p.table, h)))
    ensures Owing(Reserve(p.table, h)) == Owing(p.table)
  {
    if Find(p.table, h) == |p.table| {
      OwingUpdate(p.table, FirstFree(p.table), Entry(h, 0, true));
    }
  }

  lemma SentKeeps(p: Pool, h: u16, n: u16)
    requires Sound(p) && Can(p, Sent(h))
    ensures Sound(Apply(p, Sent(h)))
    ensures Exact(p, n) ==> Exact(Apply(p, Sent(h)), n)
    ensures Apply(p, Sent(h)).available == p.available - 1
    ensures Owing(Apply(p, Sent(h)).table) == Owing(p.table) + 1
  {
    ReserveKeeps(p, h);
    var t, i := Reserve(p.table, h), Slot(p.table, h);
    EntryWithin(t, i);
    OwingUpdate(t, i, t[i].(outstanding := Wrap(t[i].outstanding + 1)));
  }

  lemma CompletedKeeps(p: Pool, h: u16, m: u16, n: u16)
    requires Sound(p)
    ensures Sound(Apply(p, Completed(h, m)))
    ensures Exact(p, n) ==> Exact(Apply(p, Completed(h, m)), n)
  {
    var i := Find(p.table, h);
    if i < HANDLES {
      var e := p.table[i];
      var actual := if e.outstanding >= m then m else e.outstanding;
      assert Wrap(e.outstanding - actual) == e.outstanding - actual;
      ReturnKeeps(p, i, actual, e.(outstanding := Wrap(e.outstanding - actual)), n);
    }
  }

  lemma DisconnectedKeeps(p: Pool, h: u16, n: u16)
    requires Sound(p)
    ensures Sound(Apply(p, Disconnected(h)))
    ensures Exact(p, n) ==> Exact(Apply(p, Disconnected(h)), n)
  {
    var i := Find(p.table, h);
    if i < HANDLES {
      var e := p.table[i];
      ReturnKeeps(p, i, e.outstanding, e.(outstanding := 0, inUse := false), n);
    }
  }

  lemma ClearedKeeps(p: Pool, n: u16)
    requires Sound(p)
    ensures Sound(Apply(p, Cleared)) && (Exact(p, n) ==> Exact(Apply(p, Cleared), n))
  {
    NothingOwed(EMPTY_TABLE);
  }

  lemma StepKeeps(p: Pool, s: Step, n: u16)
    requires Sound(p) && Can(p, s)
    ensures Sound(Apply(p, s))
    ensures Exact(p, n) && (s.Learned? ==> s.n == n) ==> Exact(Apply(p, s), n)
  {
    match s
    case Learned(m) => LearnedKeeps(p, m);
    case Completed(h, m) => CompletedKeeps(p, h, m, n);
    case Disconnected(h) => DisconnectedKeeps(p, h, n);
    case Sent(h) => SentKeeps(p, h, n);
    case Refused(h) => ReserveKeeps(p, h);
    case Cleared => ClearedKeeps(p, n);
  }

  /**
   Credits are never minted: whatever the controller reports, however often and for whatever handle,
   handles stay distinct, no 16-bit operation wraps, and available plus in-flight credits stay within
   the controller's buffers unless none is available. Nor do they leak: while the controller reports
   one buffer count, available plus in flight is exactly that count.
   */
  lemma {:induction false} CreditsConserved(p: Pool, steps: seq<Step>, n: u16)
    requires Sound(p) && Runs(p, steps)
    ensures Sound(Run(p, steps))
    ensures Exact(p, n) && (forall i :: 0 <= i < |steps| && steps[i].Learned? ==> steps[i].n == n)
            ==> Exact(Run(p, steps), n)
    decreases |steps|
  {
    if steps != [] {
      StepKeeps(p, steps[0], n);
      CreditsConserved(Apply(p, steps[0]), steps[1..], n);
    }
  }

  lemma StartIsExact(n: u16)
    ensures Sound(START) && Exact(START, n)
  {
    NothingOwed(EMPTY_TABLE);
  }

  /* ---------------------------------------------------------------- the account of each handle */

  function Lookup(t: seq<Entry>, h: u16): nat {
    var i := Find(t, h);
    if i < |t| then t[i].outstanding else 0
  }

  /** The buffer count last reported. */
  function Told(steps: seq<Step>): u16
    decreases |steps|
  {
    if steps == [] then 0
    else if steps[|steps| - 1].Learned? then steps[|steps| - 1].n
    else Told(steps[..|steps| - 1])
  }

  /** What a handle owes by its own history, with no table: sent, less what was completed since. */
  function Owed(steps: seq<Step>, h: u16): nat
    decreases |steps|
  {
    if steps == [] then 0
    else
      var earlier := steps[..|steps| - 1];
      var before := Owed(earlier, h);
      match steps[|steps| - 1]
      case Learned(_) => if Told(earlier) == 0 then 0 else before
      case Completed(g, n) => if g == h then Max(before - n, 0) else before
      case Disconnected(g) => if g == h then 0 else before
      case Sent(g) => if g == h then before + 1 else before
      case Refused(_) => before
      case Cleared => 0
  }

  lemma FindOnly(t: seq<Entry>, h: u16, i: nat)
    requires Distinct(t) && i < |t| && Holds(t[i], h)
    ensures Find(t, h) == i
  {
  }

  /** Changing the entry at i changes the account of that entry's handles and of no other. */
  lemma LookupUpdate(t: seq<Entry>, i: nat, e: Entry, h: u16)
    requires i < |t| && Distinct(t) && Distinct(t[i := e])
    ensures Lookup(t[i := e], h)
            == if Holds(e, h) then e.outstanding else if Holds(t[i], h) then 0 else Lookup(t, h)
  {
    var u := t[i := e];
    if Holds(e, h) {
      FindOnly(u, h, i);
    } else if Holds(t[i], h) {
      FindOnly(t, h, i);
    } else {
      var j := Find(t, h);
      if j < |t| {
        assert Holds(u[j], h);
        FindOnly(u, h, j);
      }
    }
  }

  lemma LookupReserve(t: seq<Entry>, g: u16, h: u16)
    requires Distinct(t) && HasSlot(t, g)
    ensures Distinct(Reserve(t, g)) && Lookup(Reserve(t, g), h) == Lookup(t, h)
  {
    if Find(t, g) == |t| {
      LookupUpdate(t, FirstFree(t), Entry(g, 0, true), h);
    }
  }

  lemma LookupSent(p: Pool, g: u16, h: u16)
    requires Sound(p) && Can(p, Sent(g))
    ensures Lookup(Apply(p, Sent(g)).table, h) == Lookup(p.table, h) + if g == h then 1 else 0
  {
    SentKeeps(p, g, 0);
    var t, i := Reserve(p.table, g), Slot(p.table, g);
    ReserveKeeps(p, g);
    EntryWithin(t, i);
    LookupReserve(p.table, g, h);
    LookupUpdate(t, i, t[i].(outstanding := Wrap(t[i].outstanding + 1)), h);
    FindOnly(t, g, i);
  }

  lemma LookupCompleted(p: Pool, g: u16, n: u16, h: u16)
    requires Sound(p)
    ensures Lookup(Apply(p, Completed(g, n)).table, h)
            == if g == h then Max(Lookup(p.table, h) - n, 0) else Lookup(p.table, h)
  {
    var i := Find(p.table, g);
    if i < HANDLES {
      var e := p.table[i];
      var actual := if e.outstanding >= n then n else e.outstanding;
      assert Wrap(e.outstanding - actual) == e.outstanding - actual;
      LookupUpdate(p.table, i, e.(outstanding := Wrap(e.outstanding - actual)), h);
    }
  }

  lemma LookupDisconnected(p: Pool, g: u16, h: u16)
    requires Sound(p)
    ensures Lookup(Apply(p, Disconnected(g)).table, h) == if g == h then 0 else Lookup(p.table, h)
  {
    var i := Find(p.table, g);
    if i < HANDLES {
      LookupUpdate(p.table, i, p.table[i].(outstanding := 0, inUse := false), h);
    }
  }

  lemma LookupNobody(h: u16)
    ensures Lookup(EMPTY_TABLE, h) == 0
  {
  }

  lemma LookupLearned(p: Pool, n: u16, h: u16)
    ensures Lookup(Apply(p, Learned(n)).table, h) == if p.total == 0 then 0 else Lookup(p.table, h)
  {
    LookupNobody(h);
  }

  lemma TotalStep(p: Pool, s: Step)
    requires Can(p, s)
    ensures Apply(p, s).total == if s.Learned? then s.n else p.total
  {
  }

  lemma LookupStep(p: Pool, s: Step, h: u16)
    requires Sound(p) && Can(p, s)
    ensures Lookup(Apply(p, s).table, h)
            == match s
               case Learned(_) => (if p.total == 0 then 0 else Lookup(p.table, h))
               case Completed(g, n) => (if g == h then Max(Lookup(p.table, h) - n, 0) else Lookup(p.table, h))
               case Disconnected(g) => (if g == h then 0 else Lookup(p.table, h))
               case Sent(g) => Lookup(p.table, h) + (if g == h then 1 else 0)
               case Refused(_) => Lookup(p.table, h)
               case Cleared => 0
    ensures Apply(p, s).total == if s.Learned? then s.n else p.total
  {
    TotalStep(p, s);
    match s
    case Learned(n) =>
      LookupLearned(p, n, h);
    case Completed(g, n) =>
      LookupCompleted(p, g, n, h);
    case Disconnected(g) =>
      LookupDisconnected(p, g, h);
    case Sent(g) =>
      LookupSent(p, g, h);
    case Refused(g) =>
      LookupReserve(p.table, g, h);
    case Cleared =>
      LookupNobody(h);
  }

  lemma {:induction false} RunSnoc(p: Pool, steps: seq<Step>)
    requires steps != [] && Runs(p, steps)
    ensures Runs(p, steps[..|steps| - 1])
    ensures Can(Run(p, steps[..|steps| - 1]), steps[|steps| - 1])
    ensures Run(p, steps) == Apply(Run(p, steps[..|steps| - 1]), steps[|steps| - 1])
    decreases |steps|
  {
    var n := |steps| - 1;
    if n == 0 {
      assert steps[1..] == [];
    } else {
      RunSnoc(Apply(p, steps[0]), steps[1..]);
      assert steps[..n][1..] == steps[1..][..n - 1];
    }
  }

  /**
   The table is a faithful ledger: in every run from power-up what the table says a handle owes is
   what that handle's own history says, however slots were reused in between.
   */
  lemma {:induction false} TableIsLedger(steps: seq<Step>, h: u16)
    requires Runs(START, steps)
    ensures Run(START, steps).total == Told(steps)
    ensures Lookup(Run(START, steps).table, h) == Owed(steps, h)
    decreases |steps|
  {
    if steps != [] {
      var earlier := steps[..|steps| - 1];
      RunSnoc(START, steps);
      TableIsLedger(earlier, h);
      StartIsExact(0);
      CreditsConserved(START, earlier, 0);
      LookupStep(Run(START, earlier), steps[|steps| - 1], h);
    }
  }
}
