/**
 The bridge's credit pool as the driver keeps it: an array of handle entries scanned and updated in
 place.
 */
module Credits {
  import opened Bytes
  import opened CreditSpec

  class CreditPool {
    var total: u16
    var available: u16
    const handles: array<Entry>

    ghost predicate Valid()
      reads this
    {
      handles.Length == HANDLES
    }

    ghost function Model(): Pool
      reads this, handles
    {
      Pool(total, available, handles[..])
    }

    constructor ()
      ensures Valid() && fresh(handles)
      ensures Model() == START
    {
      handles := new Entry[HANDLES](i => UNUSED);
      total, available := 0, 0;
    }

    method TotalInFlight() returns (inFlight: u16)
      requires Valid()
      ensures inFlight == InFlight(handles[..])
    {
      inFlight := 0;
      for i := 0 to HANDLES
        invariant inFlight == InFlight(handles[..i])
      {
        assert handles[..i + 1][..i] == handles[..i];
        if handles[i].inUse {
          inFlight := Wrap(inFlight + handles[i].outstanding);
        }
      }
      assert handles[..HANDLES] == handles[..];
    }

    method ClampCredits()
      requires Valid()
      modifies `available
      ensures Model() == Clamp(old(Model()))
    {
      if total == 0 {
        available := 0;
        return;
      }
      var inFlight := TotalInFlight();
      var ceiling := if total > inFlight then Wrap(total - inFlight) else 0;
      if available > ceiling {
        available := ceiling;
      }
    }

    /** The entry of a handle; HANDLES when it has none. */
    method FindEntry(h: u16) returns (i: nat)
      requires Valid()
      ensures i == Find(handles[..], h)
    {
      i := 0;
      while i < HANDLES && !Holds(handles[i], h)
        invariant i <= HANDLES
        invariant forall j :: 0 <= j < i ==> !Holds(handles[j], h)
      {
        i := i + 1;
      }
    }

    /** One scan finds the handle's entry or else claims the first free one. */
    method ReserveHandleSlot(h: u16) returns (slot: int)
      requires Valid()
      modifies handles
      ensures slot == -1 <==> !HasSlot(old(handles[..]), h)
      ensures slot != -1 ==> slot == Slot(old(handles[..]), h) && handles[..] == Reserve(old(handles[..]), h)
      ensures slot == -1 ==> handles[..] == old(handles[..])
    {
      var firstFree := -1;
      for i := 0 to HANDLES
        invariant handles[..] == old(handles[..])
        invariant forall j :: 0 <= j < i ==> !Holds(handles[j], h)
        invariant firstFree == -1 ==> forall j :: 0 <= j < i ==> handles[j].inUse
        invariant firstFree != -1 ==> 0 <= firstFree < i && !handles[firstFree].inUse
                                      && forall j :: 0 <= j < firstFree ==> handles[j].inUse
      {
        if handles[i].inUse {
          if handles[i].handle == h {
            return i;
          }
        } else if firstFree < 0 {
          firstFree := i;
        }
      }
      if firstFree >= 0 {
        handles[firstFree] := Entry(h, 0, true);
        return firstFree;
      }
      return -1;
    }

    method RecordAclCompleted(h: u16, completed: u16)
      requires Valid()
      modifies this, handles
      ensures Model() == Apply(old(Model()), Completed(h, completed))
    {
      var i := FindEntry(h);
      if i == HANDLES {
        return;
      }
      var e := handles[i];
      var actual := if e.outstanding >= completed then completed else e.outstanding;
      handles[i] := e.(outstanding := Wrap(e.outstanding - actual));
      available := Wrap(available + actual);
      assert handles[..] == old(handles[..])[i := e.(outstanding := Wrap(e.outstanding - actual))];
      ClampCredits();
    }

    method RecordDisconnection(h: u16)
      requires Valid()
      modifies this, handles
      ensures Model() == Apply(old(Model()), Disconnected(h))
    {
      var i := FindEntry(h);
      if i == HANDLES {
        return;
      }
      var lost := handles[i].outstanding;
      var e := handles[i].(outstanding := 0, inUse := false);
      handles[i] := e;
      if lost > 0 {
        available := Wrap(available + lost);
      }
      assert handles[..] == old(handles[..])[i := e];
      ClampCredits();
    }

    method ForgetHandles()
      requires Valid()
      modifies handles
      ensures handles[..] == EMPTY_TABLE
    {
      forall i | 0 <= i < HANDLES {
        handles[i] := UNUSED;
      }
    }

    /** A Read_Buffer_Size answer: the first one starts the pool, a later one only moves the ceiling. */
    method LearnTotal(n: u16)
      requires Valid()
      modifies this, handles
      ensures Model() == Apply(old(Model()), Learned(n))
    {
      if total == 0 {
        ForgetHandles();
        available := n;
      }
      total := n;
      ClampCredits();
    }

    method Clear()
      requires Valid()
      modifies this, handles
      ensures Model() == Apply(old(Model()), Cleared)
    {
      ForgetHandles();
      available := total;
    }

    /** The wire took a packet of the handle in this slot. */
    method Spend(slot: nat)
      requires Valid() && slot < HANDLES
      modifies `available, handles
      ensures var e := old(handles[slot]);
              && handles[..] == old(handles[..])[slot := e.(outstanding := Wrap(e.outstanding + 1))]
              && available == Wrap(old(available) - 1)
    {
      available := Wrap(available - 1);
      handles[slot] := handles[slot].(outstanding := Wrap(handles[slot].outstanding + 1));
    }
  }
}
