/** Unplugging with serial number 0 is unplugging every registered device, in whatever order. */
module UnplugAll {
  import opened BusTypes
  import opened BusSpec
  import opened BusRuns

  ghost predicate Order(order: seq<nat>)
  {
    && (forall k :: 0 <= k < |order| ==> order[k] < SLOTS)
    && (forall j, k :: 0 <= j < k < |order| ==> order[j] != order[k])
  }

  /** The order visits every slot that has a driver. */
  ghost predicate Covers(st: State, order: seq<nat>)
    requires |st.slots| == SLOTS
  {
    forall i :: 0 <= i < SLOTS && st.slots[i].intf != 0 ==> i in order
  }

  /** Single unplug requests, one after the other. */
  function UnplugSeq(st: State, order: seq<nat>, cb: Callbacks): (o: Outcome)
    requires WellFormed(st)
    requires forall k :: 0 <= k < |order| ==> order[k] < SLOTS
    ensures WellFormed(o.st)
    decreases |order|
  {
    if order == [] then Outcome(st, Success, [])
    else
      var o := UnplugSlot(st, order[0], cb);
      var rest := UnplugSeq(o.st, order[1..], cb);
      rest.(events := o.events + rest.events)
  }

  /** Slot k of st', and its interface, are what unplugging slot k of st alone makes of them. */
  ghost predicate DoneAt(st: State, st': State, k: nat, cb: Callbacks)
    requires WellFormed(st) && WellFormed(st') && k < SLOTS
  {
    var alone := UnplugSlot(st, k, cb).st;
    && st'.slots[k] == alone.slots[k]
    && (st.slots[k].intf != 0 ==> st'.mem[st.slots[k].intf] == alone.mem[st.slots[k].intf])
  }

  ghost predicate SameAt(st: State, st': State, k: nat)
    requires WellFormed(st) && WellFormed(st') && k < SLOTS
  {
    && st'.slots[k] == st.slots[k]
    && (st.slots[k].intf != 0 ==> st'.mem[st.slots[k].intf] == st.mem[st.slots[k].intf])
  }

  ghost predicate SameElsewhere(st: State, st': State)
    requires WellFormed(st)
  {
    && st'.mem.Keys == st.mem.Keys
    && (forall p :: p in st.mem && PhaseIn(st, p) == Out ==> st'.mem[p] == st.mem[p])
    && st'.enumMode == st.enumMode && st'.power == st.power && st'.pnp == st.pnp
  }

  ghost function EventsOf(st: State, order: seq<nat>, cb: Callbacks): seq<Event>
    requires WellFormed(st)
    requires forall k :: 0 <= k < |order| ==> order[k] < SLOTS
    decreases |order|
  {
    if order == [] then [] else UnplugSlot(st, order[0], cb).events + EventsOf(st, order[1..], cb)
  }

  /** Unplugging slot j touches nothing but slot j and its interface. */
  lemma UnplugIsLocal(st: State, tr: seq<Event>, j: nat, cb: Callbacks, k: nat)
    requires Sound(World(st, tr)) && j < SLOTS && k < SLOTS
    ensures var o := UnplugSlot(st, j, cb);
            && Sound(World(o.st, tr + o.events)) && SameElsewhere(st, o.st)
            && (if k == j then DoneAt(st, o.st, k, cb) else SameAt(st, o.st, k))
  {
    UnplugSlotKeeps(World(st, tr), j, cb);
  }

  /** Unplugging depends only on the slot itself. */
  lemma UnplugOfSame(st: State, st': State, k: nat, cb: Callbacks)
    requires WellFormed(st) && WellFormed(st') && k < SLOTS && SameAt(st, st', k)
    ensures UnplugSlot(st', k, cb).events == UnplugSlot(st, k, cb).events
    ensures forall r: State :: WellFormed(r) && DoneAt(st', r, k, cb) ==> DoneAt(st, r, k, cb)
  {
  }

  lemma EventsOfSame(st: State, st': State, order: seq<nat>, cb: Callbacks)
    requires WellFormed(st) && WellFormed(st')
    requires forall k :: 0 <= k < |order| ==> order[k] < SLOTS && SameAt(st, st', order[k])
    ensures EventsOf(st', order, cb) == EventsOf(st, order, cb)
    decreases |order|
  {
    if order != [] {
      UnplugOfSame(st, st', order[0], cb);
      EventsOfSame(st, st', order[1..], cb);
    }
  }

  lemma DoneThenSame(a: State, b: State, c: State, k: nat, cb: Callbacks)
    requires WellFormed(a) && WellFormed(b) && WellFormed(c) && k < SLOTS
    requires DoneAt(a, b, k, cb) && SameAt(b, c, k)
    ensures DoneAt(a, c, k, cb)
  {
  }

  lemma SameElsewhereChain(a: State, b: State, c: State)
    requires WellFormed(a) && WellFormed(b) && SameElsewhere(a, b) && SameElsewhere(b, c)
    requires forall k :: 0 <= k < SLOTS ==> b.slots[k].intf == a.slots[k].intf
    ensures SameElsewhere(a, c)
  {
    assert forall p :: PhaseIn(a, p) == Out ==> PhaseIn(b, p) == Out;
  }

  lemma OrderTail(order: seq<nat>)
    requires Order(order) && order != []
    ensures Order(order[1..]) && order[0] !in order[1..]
    ensures forall k :: k in order <==> k == order[0] || k in order[1..]
  {
    assert order == [order[0]] + order[1..];
  }

  lemma {:induction false} SeqEvents(st: State, tr: seq<Event>, order: seq<nat>, cb: Callbacks)
    requires Sound(World(st, tr)) && Order(order)
    ensures UnplugSeq(st, order, cb).events == EventsOf(st, order, cb)
    decreases |order|
  {
    if order != [] {
      var j, rest := order[0], order[1..];
      var o := UnplugSlot(st, j, cb);
      OrderTail(order);
      UnplugIsLocal(st, tr, j, cb, j);
      SeqEvents(o.st, tr + o.events, rest, cb);
      forall i | 0 <= i < |rest| ensures SameAt(st, o.st, rest[i]) { UnplugIsLocal(st, tr, j, cb, rest[i]); }
      EventsOfSame(st, o.st, rest, cb);
    }
  }

  lemma {:induction false} SeqElsewhere(st: State, tr: seq<Event>, order: seq<nat>, cb: Callbacks)
    requires Sound(World(st, tr)) && Order(order)
    ensures SameElsewhere(st, UnplugSeq(st, order, cb).st)
    decreases |order|
  {
    if order != [] {
      var j, rest := order[0], order[1..];
      var o := UnplugSlot(st, j, cb);
      OrderTail(order);
      UnplugIsLocal(st, tr, j, cb, j);
      SeqElsewhere(o.st, tr + o.events, rest, cb);
      SameElsewhereChain(st, o.st, UnplugSeq(o.st, rest, cb).st);
    }
  }

  /** What a sequence of single unplugs leaves behind does not depend on the order. */
  lemma {:induction false} SeqEffect(st: State, tr: seq<Event>, order: seq<nat>, cb: Callbacks, k: nat)
    requires Sound(World(st, tr)) && Order(order) && k < SLOTS
    ensures var r := UnplugSeq(st, order, cb).st;
            if k in order then DoneAt(st, r, k, cb) else SameAt(st, r, k)
    decreases |order|
  {
    if order != [] {
      var j, rest := order[0], order[1..];
      var o := UnplugSlot(st, j, cb);
      OrderTail(order);
      UnplugIsLocal(st, tr, j, cb, k);
      SeqEffect(o.st, tr + o.events, rest, cb, k);
      var r := UnplugSeq(o.st, rest, cb).st;
      if k == j {
        DoneThenSame(st, o.st, r, k, cb);
      } else if k in rest {
        UnplugOfSame(st, o.st, k, cb);
      }
    }
  }

  /** Two orders that cover the registered devices lead to the same bus. */
  lemma OrderIrrelevant(st: State, tr: seq<Event>, a: seq<nat>, b: seq<nat>, cb: Callbacks)
    requires Sound(World(st, tr)) && Order(a) && Order(b) && Covers(st, a) && Covers(st, b)
    ensures UnplugSeq(st, a, cb).st == UnplugSeq(st, b, cb).st
  {
    var x, y := UnplugSeq(st, a, cb).st, UnplugSeq(st, b, cb).st;
    SeqElsewhere(st, tr, a, cb);
    SeqElsewhere(st, tr, b, cb);
    forall k | 0 <= k < SLOTS
      ensures x.slots[k] == y.slots[k] && (st.slots[k].intf != 0 ==> x.mem[st.slots[k].intf] == y.mem[st.slots[k].intf])
    {
      SeqEffect(st, tr, a, cb, k);
      SeqEffect(st, tr, b, cb, k);
      if st.slots[k].intf != 0 { assert k in a && k in b; } else { assert UnplugSlot(st, k, cb).st == st; }
    }
    assert x.slots == y.slots;
    forall p | p in st.mem ensures x.mem[p] == y.mem[p] {
      if PhaseIn(st, p).In? {
        var k := if p == st.slots[0].intf then 0 else if p == st.slots[1].intf then 1 else 2;
        assert st.slots[k].intf == p;
      }
    }
    assert x.mem == y.mem;
  }

  lemma FromIsSeq(st: State, cb: Callbacks) returns (all: seq<nat>)
    requires WellFormed(st)
    ensures Order(all) && Covers(st, all) && forall k :: 0 <= k < SLOTS ==> k in all
    ensures UnplugFrom(st, 0, cb) == UnplugSeq(st, all, cb)
  {
    all := [0, 1, 2];
    var a := UnplugSlot(st, 0, cb);
    var b := UnplugSlot(a.st, 1, cb);
    assert UnplugFrom(b.st, 2, cb) == UnplugSeq(b.st, [2], cb);
    assert [1, 2][1..] == [2];
    assert UnplugFrom(a.st, 1, cb) == UnplugSeq(a.st, [1, 2], cb);
    assert [0, 1, 2][1..] == [1, 2];
  }

  // ---------- the calls made ----------

  lemma {:induction false} EventsOfAppend(st: State, a: seq<nat>, b: seq<nat>, cb: Callbacks)
    requires WellFormed(st)
    requires forall k :: 0 <= k < |a + b| ==> (a + b)[k] < SLOTS
    ensures (forall k :: 0 <= k < |a| ==> a[k] < SLOTS) && (forall k :: 0 <= k < |b| ==> b[k] < SLOTS)
    ensures EventsOf(st, a + b, cb) == EventsOf(st, a, cb) + EventsOf(st, b, cb)
    decreases |a|
  {
    forall k | 0 <= k < |a| ensures a[k] < SLOTS { assert (a + b)[k] == a[k]; }
    forall k | 0 <= k < |b| ensures b[k] < SLOTS { assert (a + b)[|a| + k] == b[k]; }
    if a == [] {
      assert a + b == b;
    } else {
      assert (a + b)[0] == a[0] && (a + b)[1..] == a[1..] + b;
      EventsOfAppend(st, a[1..], b, cb);
      assert EventsOf(st, a + b, cb) == UnplugSlot(st, a[0], cb).events + EventsOf(st, a[1..] + b, cb);
    }
  }

  function Without(b: seq<nat>, k: nat): seq<nat>
    requires k < |b|
  {
    b[..k] + b[k + 1..]
  }

  lemma OrderWithout(b: seq<nat>, k: nat)
    requires Order(b) && k < |b|
    ensures Order(Without(b, k))
  {
    forall j | 0 <= j < |b| - 1 ensures Without(b, k)[j] == b[if j < k then j else j + 1] {
    }
  }

  lemma EventsOfWithout(st: State, b: seq<nat>, k: nat, cb: Callbacks)
    requires WellFormed(st) && Order(b) && k < |b|
    ensures Order(Without(b, k))
    ensures multiset(EventsOf(st, b, cb))
            == multiset(UnplugSlot(st, b[k], cb).events) + multiset(EventsOf(st, Without(b, k), cb))
  {
    OrderWithout(b, k);
    var front, back, tail := b[..k], b[k + 1..], b[k..];
    assert b == front + tail && tail[1..] == back;
    EventsOfAppend(st, front, tail, cb);
    EventsOfAppend(st, front, back, cb);
    var x, y, z := EventsOf(st, front, cb), UnplugSlot(st, b[k], cb).events, EventsOf(st, back, cb);
    assert EventsOf(st, tail, cb) == y + z;
    assert multiset(x + (y + z)) == multiset(y) + multiset(x + z);
  }

  lemma MembersWithout(b: seq<nat>, k: nat)
    requires Order(b) && k < |b|
    ensures forall i: nat :: i in Without(b, k) <==> i in b && i != b[k]
  {
    forall i: nat | i in b && i != b[k] ensures i in Without(b, k) {
      var j :| 0 <= j < |b| && b[j] == i;
      assert Without(b, k)[if j < k then j else j - 1] == i;
    }
  }

  /** Every order makes the same calls. */
  lemma {:induction false} EventsPermute(st: State, a: seq<nat>, b: seq<nat>, cb: Callbacks)
    requires WellFormed(st) && Order(a) && Order(b)
    requires forall i :: 0 <= i < SLOTS && st.slots[i].intf != 0 ==> (i in a <==> i in b)
    ensures multiset(EventsOf(st, a, cb)) == multiset(EventsOf(st, b, cb))
    decreases |a| + |b|
  {
    if a != [] {
      EventsOfWithout(st, a, 0, cb);
      MembersWithout(a, 0);
      if a[0] in b {
        var k :| 0 <= k < |b| && b[k] == a[0];
        EventsOfWithout(st, b, k, cb);
        MembersWithout(b, k);
        EventsPermute(st, Without(a, 0), Without(b, k), cb);
      } else {
        assert a[0] in a;
        EventsPermute(st, Without(a, 0), b, cb);
      }
    } else if b != [] {
      EventsOfWithout(st, b, 0, cb);
      MembersWithout(b, 0);
      assert b[0] in b;
      EventsPermute(st, a, Without(b, 0), cb);
    }
  }

  /** The unplug-all request ends, and equals single unplugs of the registered devices in any
      order: the same final bus, the same callbacks called with the same results. Empty slots
      and devices that were never started are left as they are. */
  lemma UnplugAllIsAnyOrder(w: World, order: seq<nat>, cb: Callbacks, k: nat)
    requires Sound(w) && Order(order) && Covers(w.st, order) && k < SLOTS
    ensures var all := UnPlug(w.st, 0, cb);
            var one := UnplugSeq(w.st, order, cb);
            && all.st == one.st && multiset(all.events) == multiset(one.events)
            && DoneAt(w.st, all.st, k, cb) && SameElsewhere(w.st, all.st)
            && (w.st.slots[k].intf == 0 || w.st.mem[w.st.slots[k].intf].devstate == NotStarted ==>
                  SameAt(w.st, all.st, k))
  {
    var all := FromIsSeq(w.st, cb);
    SameOutcome(w.st, w.trace, all, order, cb);
    SeqEffect(w.st, w.trace, all, cb, k);
    SeqElsewhere(w.st, w.trace, all, cb);
    if w.st.slots[k].intf == 0 || w.st.mem[w.st.slots[k].intf].devstate == NotStarted {
      UntouchedSame(w.st, UnPlug(w.st, 0, cb).st, k, cb);
    }
  }

  lemma SameOutcome(st: State, tr: seq<Event>, a: seq<nat>, b: seq<nat>, cb: Callbacks)
    requires Sound(World(st, tr)) && Order(a) && Order(b) && Covers(st, a) && Covers(st, b)
    ensures UnplugSeq(st, a, cb).st == UnplugSeq(st, b, cb).st
    ensures multiset(UnplugSeq(st, a, cb).events) == multiset(UnplugSeq(st, b, cb).events)
  {
    OrderIrrelevant(st, tr, a, b, cb);
    SeqEvents(st, tr, a, cb);
    SeqEvents(st, tr, b, cb);
    EventsPermute(st, a, b, cb);
  }

  /** Unplugging does nothing to an empty slot or a device that was never started. */
  lemma UntouchedSame(st: State, r: State, k: nat, cb: Callbacks)
    requires WellFormed(st) && WellFormed(r) && k < SLOTS && DoneAt(st, r, k, cb)
    requires st.slots[k].intf == 0 || st.mem[st.slots[k].intf].devstate == NotStarted
    ensures SameAt(st, r, k)
  {
  }
}
